/** The token stream that Go's encoding/xml hands to a custom UnmarshalXML method.

    A decoder receives the start element explicitly and a cursor over its SCOPED token
    sequence: the element's content followed by its matching end tag; past that, the
    tokenizer reports end of input (io.EOF). A delegated child decode (DecodeElement)
    consumes the child's whole subtree. Namespace translation and the tokenizer itself
    are not modelled; a tokenizer failure is a `Broken` entry in the sequence. */
module Xml {

  datatype Option<+T> = None | Some(value: T)

  datatype Result<+T> = Ok(value: T) | Err(error: Error)

  datatype Name = Name(space: string, local: string)

  datatype Attr = Attr(name: Name, value: string)

  /** A start element: its name and its attributes in document order. */
  datatype Tag = Tag(name: Name, attrs: seq<Attr>)

  datatype Token =
    | Start(tag: Tag)
    | End(name: Name)
    | CharData(text: string)
    | Comment(text: string)
    | ProcInst(target: string, inst: string)
    | Directive(text: string)
      /** The tokenizer fails at this point (malformed input); never delivered as a token. */
    | Broken(msg: string)

  /** The errors the core can return: strconv's syntax and range errors (carrying the
      offending text), a tokenizer failure, io.EOF where a token was required, and
      errors produced by code outside the model. */
  datatype Error =
    | SyntaxErr(num: string)
    | RangeErr(num: string)
    | StreamErr(msg: string)
    | EndOfStream
    | ForeignErr(msg: string)

  /** A decode routine that lives outside the modelled files (encoding/xml's generic
      struct decoding, the Run decoder): it gets the receiver's current value, the start
      element and the element's scoped tokens, and returns the new value and an error. */
  type Decoder<!T> = (T, Tag, seq<Token>) -> (T, Option<Error>)

  /** x is a value the decode routine yields for this element from SOME incoming value:
      what is known of a field that a routine outside the model decodes over its
      earlier contents. */
  ghost predicate DecodedFrom<T(!new)>(x: T, decode: Decoder<T>, tag: Tag, body: seq<Token>)
  {
    exists v: T {:trigger decode(v, tag, body)} :: x == decode(v, tag, body).0
  }

  /** The value decoded over v witnesses DecodedFrom. */
  lemma DecodedFromWitness<T(!new)>(x: T, v: T, decode: Decoder<T>, tag: Tag, body: seq<Token>)
    requires x == decode(v, tag, body).0
    ensures DecodedFrom(x, decode, tag, body)
  {
  }

  /** What one call of d.Token() yields. */
  datatype Pulled = Eof | Fault(err: Error) | Got(tok: Token)

  /** d.Token() with the cursor at i: io.EOF past the scope; a tokenizer failure is
      reported every time it is reached (the cursor never moves past it). */
  function Pull(toks: seq<Token>, i: nat): Pulled
  {
    if i >= |toks| then Eof
    else if toks[i].Broken? then Fault(StreamErr(toks[i].msg))
    else Got(toks[i])
  }

  predicate IsStartNamed(t: Token, local: string)
  {
    t.Start? && t.tag.name.local == local
  }

  /** Index just past the end tag that closes the element whose content starts at j
      (depth counts the elements opened since j), or just past a tokenizer failure. */
  function ScopeEnd(toks: seq<Token>, j: nat, depth: nat): (e: nat)
    requires j <= |toks|
    ensures j <= e <= |toks|
    ensures j < |toks| ==> j < e
    decreases |toks| - j
  {
    if j == |toks| then j
    else match toks[j]
      case Broken(_) => j + 1
      case End(_) => if depth == 0 then j + 1 else ScopeEnd(toks, j + 1, depth - 1)
      case Start(_) => ScopeEnd(toks, j + 1, depth + 1)
      case _ => ScopeEnd(toks, j + 1, depth)
  }

  /** The scoped tokens a delegated child decode receives when its start tag was the
      token just before j. */
  function Subtree(toks: seq<Token>, j: nat): seq<Token>
    requires j <= |toks|
  {
    toks[j..ScopeEnd(toks, j, 0)]
  }

  /** Where the parent's cursor stands once the delegated child decode returns: past the
      child's subtree (assumed consumed, whatever the child did), or at the tokenizer
      failure that ended it, which the parent then reads again. */
  function After(toks: seq<Token>, j: nat): (k: nat)
    requires j <= |toks|
    ensures j <= k <= |toks|
  {
    var e := ScopeEnd(toks, j, 0);
    if j < e && toks[e - 1].Broken? then e - 1 else e
  }

  /** getAtt (defined outside this model): the value of the first attribute with the
      given local name, or "" when there is none. */
  function GetAtt(attrs: seq<Attr>, local: string): (v: string)
    ensures (forall k :: 0 <= k < |attrs| ==> attrs[k].name.local != local) ==> v == ""
    ensures forall k :: 0 <= k < |attrs| && attrs[k].name.local == local
                        && (forall m :: 0 <= m < k ==> attrs[m].name.local != local)
                        ==> v == attrs[k].value
  {
    if attrs == [] then ""
    else if attrs[0].name.local == local then attrs[0].value
    else
      var v := GetAtt(attrs[1..], local);
      assert forall k :: 1 <= k < |attrs| ==> attrs[1..][k - 1] == attrs[k];
      v
  }

  /** The value of the LAST attribute with the given local name: an attribute loop that
      assigns a field per matching attribute leaves this one in the field. */
  function LastAttr(attrs: seq<Attr>, local: string): (v: Option<string>)
    ensures v.None? <==> forall k :: 0 <= k < |attrs| ==> attrs[k].name.local != local
  {
    if attrs == [] then None
    else match LastAttr(attrs[1..], local)
      case Some(v) => Some(v)
      case None => if attrs[0].name.local == local then Some(attrs[0].value) else None
  }

  /** The last `local` attribute of two lists read one after the other is the second
      list's, when it has one. */
  lemma {:induction false} LastAttrConcat(xs: seq<Attr>, ys: seq<Attr>, local: string)
    ensures LastAttr(xs + ys, local) == if LastAttr(ys, local).Some? then LastAttr(ys, local) else LastAttr(xs, local)
    decreases |xs|
  {
    if xs != [] {
      assert (xs + ys)[1..] == xs[1..] + ys;
      LastAttrConcat(xs[1..], ys, local);
    } else {
      assert xs + ys == ys;
    }
  }

  /** The value an attribute loop leaves in a string field copied from attribute `local`. */
  function TextSetting(attrs: seq<Attr>, local: string, previous: string): string
  {
    match LastAttr(attrs, local)
    case None => previous
    case Some(v) => v
  }

  /** TextSetting over a list that starts with a given attribute. */
  lemma TextSettingPrepend(a: Attr, rest: seq<Attr>, local: string, previous: string)
    ensures TextSetting([a] + rest, local, previous)
            == TextSetting(rest, local, if a.name.local == local then a.value else previous)
  {
    assert ([a] + rest)[1..] == rest;
  }

  /** Two attribute lists read one after the other: the second starts from what the first
      left. */
  lemma TextSettingConcat(xs: seq<Attr>, ys: seq<Attr>, local: string, previous: string)
    ensures TextSetting(xs + ys, local, previous) == TextSetting(ys, local, TextSetting(xs, local, previous))
  {
    LastAttrConcat(xs, ys, local);
  }

  /* ----- The scan every decoder loop performs -----
     A decoder's loop reads a token; a start tag whose local name is in `delegated` is
     handed to DecodeElement, which consumes its subtree; any other token (an unknown or
     in-place start tag, an end tag, text) is dropped, so the children of an unknown or
     in-place element are seen by the loop as if they were its own children. */

  /** Cursor after the loop has handled the token at i. */
  function Step(toks: seq<Token>, i: nat, delegated: set<string>): (k: nat)
    requires i < |toks|
    ensures i < k <= |toks|
  {
    if toks[i].Start? && toks[i].tag.name.local in delegated then After(toks, i + 1) else i + 1
  }

  /** The error that ends the loop started at i, when `check` gives the error (if any) that
      an in-place start tag makes the loop return: a tokenizer failure, the first start
      tag that fails its check, or nothing (io.EOF, success). */
  function ScanError(toks: seq<Token>, i: nat, delegated: set<string>, check: Tag -> Option<Error>): Option<Error>
    requires i <= |toks|
    decreases |toks| - i
  {
    match Pull(toks, i)
    case Eof => None
    case Fault(e) => Some(e)
    case Got(t) =>
      if t.Start? && check(t.tag).Some? then check(t.tag)
      else ScanError(toks, Step(toks, i, delegated), delegated, check)
  }

  /** The delegated names of a loop that decodes every child in place. */
  const NoDelegation: set<string> := {}

  /** The check of a loop whose start tags never fail in place. */
  function NoCheck(tag: Tag): Option<Error>
  {
    None
  }

  /** Position of the last start tag with the given local name that the loop started at
      i handles before it stops at the scope end or at a tokenizer failure. */
  function LastStart(toks: seq<Token>, i: nat, delegated: set<string>, local: string): (k: Option<nat>)
    requires i <= |toks|
    ensures k.Some? ==> i <= k.value < |toks| && IsStartNamed(toks[k.value], local)
    decreases |toks| - i
  {
    if i == |toks| || toks[i].Broken? then None
    else match LastStart(toks, Step(toks, i, delegated), delegated, local)
      case Some(k) => Some(k)
      case None => if IsStartNamed(toks[i], local) then Some(i) else None
  }

  /** As LastStart, for a loop that also stops at the first start tag failing `check`,
      without storing what that tag carries: the last start tag with the given local name
      handled before the stop. */
  function LastPassingStart(toks: seq<Token>, i: nat, delegated: set<string>, local: string,
                            check: Tag -> Option<Error>): (k: Option<nat>)
    requires i <= |toks|
    ensures k.Some? ==> i <= k.value < |toks| && IsStartNamed(toks[k.value], local)
    decreases |toks| - i
  {
    if i == |toks| || toks[i].Broken? then None
    else if toks[i].Start? && check(toks[i].tag).Some? then None
    else match LastPassingStart(toks, Step(toks, i, delegated), delegated, local, check)
      case Some(k) => Some(k)
      case None => if IsStartNamed(toks[i], local) then Some(i) else None
  }

  /** When the loop runs to its end without an error, it stops at no start tag, so the
      last start tag it handles is the last one in its scope. */
  lemma {:induction false} LastPassingStartAll(toks: seq<Token>, i: nat, delegated: set<string>, local: string,
                                               check: Tag -> Option<Error>)
    requires i <= |toks|
    requires ScanError(toks, i, delegated, check).None?
    ensures LastPassingStart(toks, i, delegated, local, check) == LastStart(toks, i, delegated, local)
    decreases |toks| - i
  {
    if i < |toks| && !toks[i].Broken? {
      LastPassingStartAll(toks, Step(toks, i, delegated), delegated, local, check);
    }
  }

  /** The attributes, in document order, that `pick` selects from each start tag with the
      given local name the loop started at i handles: what a field kept across repeated
      children is set from. */
  function StartAttrs(toks: seq<Token>, i: nat, delegated: set<string>, local: string,
                      pick: Tag -> seq<Attr>): seq<Attr>
    requires i <= |toks|
    decreases |toks| - i
  {
    if i == |toks| || toks[i].Broken? then []
    else (if IsStartNamed(toks[i], local) then pick(toks[i].tag) else [])
         + StartAttrs(toks, Step(toks, i, delegated), delegated, local, pick)
  }

  /** Every attribute of a tag. */
  function AllAttrs(tag: Tag): seq<Attr>
  {
    tag.attrs
  }

  /** The start tag at a position LastStart returned. */
  function TagAt(toks: seq<Token>, k: nat): Tag
    requires k < |toks| && toks[k].Start?
  {
    toks[k].tag
  }
}
