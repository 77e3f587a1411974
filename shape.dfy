/** The shape properties of a picture (DrawingML, ECMA-376 Part 1, section 20.1.7):
    pic:spPr with its a:xfrm transform and a:prstGeom preset geometry, whose a:avLst
    adjust values are kept as raw XML. */
module Shape {
  import opened Xml
  import opened Strconv

  /* ================= a:xfrm ================= */

  /** Offset of the shape, in EMU. */
  datatype AOff = AOff(x: int64, y: int64)

  /** Size of the shape, in EMU. */
  datatype AExt = AExt(cx: int64, cy: int64)

  /** Rotation (60000ths of a degree), the two flip flags, offset and size. */
  datatype AXfrm = AXfrm(rot: int64, flipH: int64, flipV: int64, off: AOff, ext: AExt)

  const ZeroXfrm := AXfrm(0, 0, 0, AOff(0, 0), AExt(0, 0))

  const XfrmNumbers: set<string> := {"rot", "flipH", "flipV"}

  /** The attribute loop of AXfrm.UnmarshalXML: rot, flipH and flipV are parsed and stored
      (also when malformed); the first malformed one ends the decode. */
  function XfrmAttrs(a: AXfrm, attrs: seq<Attr>): (AXfrm, Option<Error>)
    decreases |attrs|
  {
    if attrs == [] then (a, None)
    else
      var n := ParseInt(attrs[0].value);
      var local := attrs[0].name.local;
      if local == "rot" then
        if n.err.Some? then (a.(rot := n.value), n.err) else XfrmAttrs(a.(rot := n.value), attrs[1..])
      else if local == "flipH" then
        if n.err.Some? then (a.(flipH := n.value), n.err) else XfrmAttrs(a.(flipH := n.value), attrs[1..])
      else if local == "flipV" then
        if n.err.Some? then (a.(flipV := n.value), n.err) else XfrmAttrs(a.(flipV := n.value), attrs[1..])
      else XfrmAttrs(a, attrs[1..])
  }

  /** The attributes of an xfrm start tag its attribute loop stores: all of them, or those
      up to and including the first malformed rot / flipH / flipV. */
  function XfrmStored(tag: Tag): seq<Attr>
  {
    StoredAttrs(tag.attrs, XfrmNumbers)
  }

  /** The first of two errors. */
  function Either(first: Option<Error>, second: Option<Error>): Option<Error>
  {
    if first.Some? then first else second
  }

  /** The error an off or ext start tag makes the loop return: its first coordinate (x or
      cx), then its second (y or cy), read with getAtt, does not parse. */
  function XfrmCheck(tag: Tag): Option<Error>
  {
    if tag.name.local == "off" then
      Either(ParseInt(GetAtt(tag.attrs, "x")).err, ParseInt(GetAtt(tag.attrs, "y")).err)
    else if tag.name.local == "ext" then
      Either(ParseInt(GetAtt(tag.attrs, "cx")).err, ParseInt(GetAtt(tag.attrs, "cy")).err)
    else None
  }

  /** The offset an off start tag carries: its x and y attributes, parsed. */
  function OffOf(tag: Tag): AOff
  {
    AOff(ParseInt(GetAtt(tag.attrs, "x")).value, ParseInt(GetAtt(tag.attrs, "y")).value)
  }

  /** The size an ext start tag carries: its cx and cy attributes, parsed. */
  function ExtOf(tag: Tag): AExt
  {
    AExt(ParseInt(GetAtt(tag.attrs, "cx")).value, ParseInt(GetAtt(tag.attrs, "cy")).value)
  }

  /** The record after the loop has read an off or ext start tag in place: each coordinate
      is stored before it is checked, so a malformed x (cx) leaves y (cy) as it was. Only
      off and ext change. */
  function XfrmStep(a: AXfrm, tag: Tag): (q: AXfrm)
    ensures q == a.(off := q.off, ext := q.ext)
    ensures tag.name.local != "off" ==> q.off == a.off
    ensures tag.name.local != "ext" ==> q.ext == a.ext
  {
    if tag.name.local == "off" then
      var x := ParseInt(GetAtt(tag.attrs, "x"));
      if x.err.Some? then a.(off := a.off.(x := x.value))
      else a.(off := AOff(x.value, ParseInt(GetAtt(tag.attrs, "y")).value))
    else if tag.name.local == "ext" then
      var cx := ParseInt(GetAtt(tag.attrs, "cx"));
      if cx.err.Some? then a.(ext := a.ext.(cx := cx.value))
      else a.(ext := AExt(cx.value, ParseInt(GetAtt(tag.attrs, "cy")).value))
    else a
  }

  /** A start tag that passes its check stores exactly what it carries: off its parsed x
      and y, ext its parsed cx and cy; the other field is untouched. */
  lemma XfrmStepPlaces(a: AXfrm, tag: Tag)
    requires XfrmCheck(tag).None?
    ensures XfrmStep(a, tag).off == if tag.name.local == "off" then OffOf(tag) else a.off
    ensures XfrmStep(a, tag).ext == if tag.name.local == "ext" then ExtOf(tag) else a.ext
  {
  }

  /** The token loop of AXfrm.UnmarshalXML from cursor i: off and ext are read in place
      from their own attributes; every other token is passed over. */
  function XfrmLoop(a: AXfrm, toks: seq<Token>, i: nat): (AXfrm, Option<Error>)
    requires i <= |toks|
    decreases |toks| - i
  {
    match Pull(toks, i)
    case Eof => (a, None)
    case Fault(e) => (a, Some(e))
    case Got(t) =>
      if !t.Start? then XfrmLoop(a, toks, i + 1)
      else
        var q := XfrmStep(a, t.tag);
        if XfrmCheck(t.tag).Some? then (q, XfrmCheck(t.tag))
        else XfrmLoop(q, toks, i + 1)
  }

  function XfrmSpec(a0: AXfrm, start: Tag, toks: seq<Token>): (AXfrm, Option<Error>)
  {
    var (a, err) := XfrmAttrs(a0, start.attrs);
    if err.Some? then (a, err) else XfrmLoop(a, toks, 0)
  }

  /** AXfrm.UnmarshalXML. */
  method DecodeXfrm(a0: AXfrm, start: Tag, toks: seq<Token>) returns (a: AXfrm, err: Option<Error>)
    ensures (a, err) == XfrmSpec(a0, start, toks)
  {
    a := a0;
    for k := 0 to |start.attrs|
      invariant XfrmAttrs(a, start.attrs[k..]) == XfrmAttrs(a0, start.attrs)
    {
      var attr := start.attrs[k];
      assert start.attrs[k..][1..] == start.attrs[k + 1..];
      if attr.name.local == "rot" {
        var n := ParseInt(attr.value);
        a := a.(rot := n.value);
        if n.err.Some? {
          return a, n.err;
        }
      } else if attr.name.local == "flipH" {
        var n := ParseInt(attr.value);
        a := a.(flipH := n.value);
        if n.err.Some? {
          return a, n.err;
        }
      } else if attr.name.local == "flipV" {
        var n := ParseInt(attr.value);
        a := a.(flipV := n.value);
        if n.err.Some? {
          return a, n.err;
        }
      }
    }
    var i := 0;
    while true
      invariant i <= |toks|
      invariant XfrmLoop(a, toks, i) == XfrmSpec(a0, start, toks)
      decreases |toks| - i
    {
      var p := Pull(toks, i);
      if p.Eof? {
        break;
      }
      if p.Fault? {
        return a, Some(p.err);
      }
      i := i + 1;
      var t := p.tok;
      if t.Start? && t.tag.name.local == "off" {
        var x := ParseInt(GetAtt(t.tag.attrs, "x"));
        a := a.(off := a.off.(x := x.value));
        if x.err.Some? {
          return a, x.err;
        }
        var y := ParseInt(GetAtt(t.tag.attrs, "y"));
        a := a.(off := a.off.(y := y.value));
        if y.err.Some? {
          return a, y.err;
        }
      } else if t.Start? && t.tag.name.local == "ext" {
        var cx := ParseInt(GetAtt(t.tag.attrs, "cx"));
        a := a.(ext := a.ext.(cx := cx.value));
        if cx.err.Some? {
          return a, cx.err;
        }
        var cy := ParseInt(GetAtt(t.tag.attrs, "cy"));
        a := a.(ext := a.ext.(cy := cy.value));
        if cy.err.Some? {
          return a, cy.err;
        }
      }
    }
    return a, None;
  }

  lemma {:induction false} XfrmAttrsError(a: AXfrm, attrs: seq<Attr>)
    ensures XfrmAttrs(a, attrs).1 == FirstMalformed(attrs, XfrmNumbers)
    ensures XfrmAttrs(a, attrs).0.off == a.off && XfrmAttrs(a, attrs).0.ext == a.ext
    decreases |attrs|
  {
    if attrs != [] {
      var n := ParseInt(attrs[0].value);
      var local := attrs[0].name.local;
      if local == "rot" {
        XfrmAttrsError(a.(rot := n.value), attrs[1..]);
      } else if local == "flipH" {
        XfrmAttrsError(a.(flipH := n.value), attrs[1..]);
      } else if local == "flipV" {
        XfrmAttrsError(a.(flipV := n.value), attrs[1..]);
      } else {
        XfrmAttrsError(a, attrs[1..]);
      }
    }
  }

  /** rot, flipH and flipV hold the last values given for them among the attributes
      handled (the malformed one that ends the loop included, as it is stored before it
      is checked), or are unchanged; on success that is every attribute. */
  lemma {:induction false} XfrmAttrsMeaning(a: AXfrm, attrs: seq<Attr>)
    ensures var stored := StoredAttrs(attrs, XfrmNumbers);
      XfrmAttrs(a, attrs).0 == a.(rot := Setting(stored, "rot", a.rot), flipH := Setting(stored, "flipH", a.flipH),
                                  flipV := Setting(stored, "flipV", a.flipV))
    ensures XfrmAttrs(a, attrs).1.None? ==>
              XfrmAttrs(a, attrs).0 == a.(rot := Setting(attrs, "rot", a.rot), flipH := Setting(attrs, "flipH", a.flipH),
                                          flipV := Setting(attrs, "flipV", a.flipV))
    decreases |attrs|
  {
    if attrs != [] {
      var n := ParseInt(attrs[0].value);
      var local := attrs[0].name.local;
      HandledAttrsCons(attrs, XfrmNumbers);
      var rest := StoredAttrs(attrs[1..], XfrmNumbers);
      SettingPrepend(attrs[0], rest, "rot", a.rot);
      SettingPrepend(attrs[0], rest, "flipH", a.flipH);
      SettingPrepend(attrs[0], rest, "flipV", a.flipV);
      SettingOne(attrs[0], "rot", a.rot);
      SettingOne(attrs[0], "flipH", a.flipH);
      SettingOne(attrs[0], "flipV", a.flipV);
      if local !in XfrmNumbers {
        assert XfrmAttrs(a, attrs) == XfrmAttrs(a, attrs[1..]);
        XfrmAttrsMeaning(a, attrs[1..]);
      } else {
        var a' := if local == "rot" then a.(rot := n.value)
                  else if local == "flipH" then a.(flipH := n.value)
                  else a.(flipV := n.value);
        if n.err.Some? {
          assert StoredAttrs(attrs, XfrmNumbers) == [attrs[0]];
          assert XfrmAttrs(a, attrs).0 == a';
        } else {
          assert StoredAttrs(attrs, XfrmNumbers) == [attrs[0]] + rest;
          assert XfrmAttrs(a, attrs) == XfrmAttrs(a', attrs[1..]);
          XfrmAttrsMeaning(a', attrs[1..]);
        }
      }
    }
    XfrmAttrsError(a, attrs);
    MalformedIndexAll(attrs, XfrmNumbers);
  }

  /** The token loop fails exactly at a tokenizer failure or at the first off / ext whose
      coordinates do not parse, returning that error. */
  lemma {:induction false} XfrmErrors(a: AXfrm, toks: seq<Token>, i: nat)
    requires i <= |toks|
    ensures XfrmLoop(a, toks, i).1 == ScanError(toks, i, NoDelegation, XfrmCheck)
    decreases |toks| - i
  {
    match Pull(toks, i)
    case Eof =>
    case Fault(_) =>
    case Got(t) =>
      assert Step(toks, i, NoDelegation) == i + 1;
      if !t.Start? {
        assert XfrmLoop(a, toks, i) == XfrmLoop(a, toks, i + 1);
        XfrmErrors(a, toks, i + 1);
      } else if XfrmCheck(t.tag).None? {
        var q := XfrmStep(a, t.tag);
        assert XfrmLoop(a, toks, i) == XfrmLoop(q, toks, i + 1);
        XfrmErrors(q, toks, i + 1);
      }
  }

  /** The token loop changes only off and ext: rot, flipH and flipV are kept. */
  lemma {:induction false} XfrmKeepsRotation(a: AXfrm, toks: seq<Token>, i: nat)
    requires i <= |toks|
    ensures var b := XfrmLoop(a, toks, i).0;
      b == a.(off := b.off, ext := b.ext)
    decreases |toks| - i
  {
    match Pull(toks, i)
    case Eof =>
    case Fault(_) =>
    case Got(t) =>
      assert Step(toks, i, NoDelegation) == i + 1;
      if !t.Start? {
        assert XfrmLoop(a, toks, i) == XfrmLoop(a, toks, i + 1);
        XfrmKeepsRotation(a, toks, i + 1);
      } else if XfrmCheck(t.tag).None? {
        var q := XfrmStep(a, t.tag);
        assert XfrmLoop(a, toks, i) == XfrmLoop(q, toks, i + 1);
        XfrmKeepsRotation(q, toks, i + 1);
      }
  }

  /** On success, off holds the parsed x and y of the LAST off child, and is unchanged
      when there is none. */
  lemma {:induction false} XfrmOffPlacement(a: AXfrm, toks: seq<Token>, i: nat)
    requires i <= |toks|
    ensures var (b, err) := XfrmLoop(a, toks, i);
      err.None? ==>
        b.off == (match LastStart(toks, i, NoDelegation, "off")
                 case None => a.off
                 case Some(k) => OffOf(TagAt(toks, k)))
    decreases |toks| - i
  {
    match Pull(toks, i)
    case Eof =>
    case Fault(_) =>
    case Got(t) =>
      assert Step(toks, i, NoDelegation) == i + 1;
      if !t.Start? {
        assert XfrmLoop(a, toks, i) == XfrmLoop(a, toks, i + 1);
        XfrmOffPlacement(a, toks, i + 1);
      } else if XfrmCheck(t.tag).None? {
        var q := XfrmStep(a, t.tag);
        assert XfrmLoop(a, toks, i) == XfrmLoop(q, toks, i + 1);
        XfrmStepPlaces(a, t.tag);
        XfrmOffPlacement(q, toks, i + 1);
      }
  }

  /** On success, ext holds the parsed cx and cy of the LAST ext child, and is unchanged
      when there is none. */
  lemma {:induction false} XfrmExtPlacement(a: AXfrm, toks: seq<Token>, i: nat)
    requires i <= |toks|
    ensures var (b, err) := XfrmLoop(a, toks, i);
      err.None? ==>
        b.ext == (match LastStart(toks, i, NoDelegation, "ext")
                 case None => a.ext
                 case Some(k) => ExtOf(TagAt(toks, k)))
    decreases |toks| - i
  {
    match Pull(toks, i)
    case Eof =>
    case Fault(_) =>
    case Got(t) =>
      assert Step(toks, i, NoDelegation) == i + 1;
      if !t.Start? {
        assert XfrmLoop(a, toks, i) == XfrmLoop(a, toks, i + 1);
        XfrmExtPlacement(a, toks, i + 1);
      } else if XfrmCheck(t.tag).None? {
        var q := XfrmStep(a, t.tag);
        assert XfrmLoop(a, toks, i) == XfrmLoop(q, toks, i + 1);
        XfrmStepPlaces(a, t.tag);
        XfrmExtPlacement(q, toks, i + 1);
      }
  }

  /** A whole xfrm decode: it fails exactly on a malformed rot / flipH / flipV (checked
      first, in document order) or later in the token loop; when the attributes are well
      formed, rot, flipH and flipV are the last attributes' values. A malformed one leaves
      the record as the attributes up to it (its own value stored) made it, with off and
      ext untouched. Either way rot, flipH and flipV are what the stored attributes give,
      as the token loop never changes them. */
  lemma XfrmDecode(a0: AXfrm, start: Tag, toks: seq<Token>)
    ensures var (a, err) := XfrmSpec(a0, start, toks);
      && (SomeMalformed(start.attrs, XfrmNumbers) ==> err == FirstMalformed(start.attrs, XfrmNumbers))
      && (SomeMalformed(start.attrs, XfrmNumbers) ==>
            var stored := StoredAttrs(start.attrs, XfrmNumbers);
            a == a0.(rot := Setting(stored, "rot", a0.rot), flipH := Setting(stored, "flipH", a0.flipH),
                     flipV := Setting(stored, "flipV", a0.flipV)))
      && (!SomeMalformed(start.attrs, XfrmNumbers) ==>
            && err == ScanError(toks, 0, NoDelegation, XfrmCheck)
            && a.rot == Setting(start.attrs, "rot", a0.rot)
            && a.flipH == Setting(start.attrs, "flipH", a0.flipH)
            && a.flipV == Setting(start.attrs, "flipV", a0.flipV))
      && a.rot == Setting(XfrmStored(start), "rot", a0.rot)
      && a.flipH == Setting(XfrmStored(start), "flipH", a0.flipH)
      && a.flipV == Setting(XfrmStored(start), "flipV", a0.flipV)
  {
    XfrmAttrsError(a0, start.attrs);
    XfrmAttrsMeaning(a0, start.attrs);
    XfrmErrors(XfrmAttrs(a0, start.attrs).0, toks, 0);
    XfrmKeepsRotation(XfrmAttrs(a0, start.attrs).0, toks, 0);
  }

  /** A malformed x stops the decode with y never read: x holds 0 and y keeps its value. */
  lemma XfrmOffPartial(start: Tag, y: int64)
    requires start.attrs == []
    ensures var off := Tag(Name("a", "off"), [Attr(Name("", "x"), "abc"), Attr(Name("", "y"), "5")]);
      var a0 := ZeroXfrm.(off := AOff(7, y));
      XfrmSpec(a0, start, [Start(off), End(off.name), End(start.name)])
      == (a0.(off := AOff(0, y)), Some(SyntaxErr("abc")))
  {
    assert !IsDecimal("abc") by {
      assert !IsDigit("abc"[0]);
    }
  }

  /* ================= a:avLst ================= */

  /** The adjust values, kept as the serialized XML of the element. */
  datatype AAvLst = AAvLst(rawXML: string)

  /** xml.Marshal applied to a token (outside this model); the start element goes through
      the same function as a Start token. */
  type Marshal = Token -> Result<string>

  /** The token loop of AAvLst.UnmarshalXML from cursor i with `content` serialized so
      far: it stops at io.EOF or at the first end tag equal to the start element's end
      tag, and fails at a tokenizer failure or a token that does not serialize. */
  function AvLstLoop(content: string, name: Name, toks: seq<Token>, i: nat, marshal: Marshal): Result<string>
    requires i <= |toks|
    decreases |toks| - i
  {
    match Pull(toks, i)
    case Eof => Ok(content)
    case Fault(e) => Err(e)
    case Got(t) =>
      if t == End(name) then Ok(content)
      else match marshal(t)
        case Err(e) => Err(e)
        case Ok(b) => AvLstLoop(content + b, name, toks, i + 1, marshal)
  }

  function AvLstSpec(a0: AAvLst, start: Tag, toks: seq<Token>, marshal: Marshal): (AAvLst, Option<Error>)
  {
    match marshal(Start(start))
    case Err(e) => (a0, Some(e))
    case Ok(s) =>
      match AvLstLoop(s, start.name, toks, 0, marshal)
      case Err(e) => (a0, Some(e))
      case Ok(c) => (AAvLst(c), None)
  }

  /** AAvLst.UnmarshalXML. */
  method DecodeAvLst(a0: AAvLst, start: Tag, toks: seq<Token>, marshal: Marshal)
    returns (a: AAvLst, err: Option<Error>)
    ensures (a, err) == AvLstSpec(a0, start, toks, marshal)
  {
    a := a0;
    var m := marshal(Start(start));
    if m.Err? {
      return a, Some(m.error);
    }
    var content := m.value;
    var i := 0;
    while true
      invariant i <= |toks|
      invariant AvLstLoop(m.value, start.name, toks, 0, marshal) == AvLstLoop(content, start.name, toks, i, marshal)
      decreases |toks| - i
    {
      var p := Pull(toks, i);
      if p.Eof? {
        break;
      }
      if p.Fault? {
        return a, Some(p.err);
      }
      i := i + 1;
      if p.tok == End(start.name) {
        break;
      }
      var b := marshal(p.tok);
      if b.Err? {
        return a, Some(b.error);
      }
      content := content + b.value;
    }
    a := a.(rawXML := content);
    return a, None;
  }

  /** Where the avLst loop started at i stops reading: the scope end, a tokenizer failure
      or the first end tag with the start element's name. */
  function AvLstStop(toks: seq<Token>, name: Name, i: nat): (j: nat)
    requires i <= |toks|
    ensures i <= j <= |toks|
    ensures forall m :: i <= m < j ==> !toks[m].Broken? && toks[m] != End(name)
    ensures j < |toks| ==> toks[j].Broken? || toks[j] == End(name)
    decreases |toks| - i
  {
    if i == |toks| || toks[i].Broken? || toks[i] == End(name) then i else AvLstStop(toks, name, i + 1)
  }

  /** Reference definition: the serializations of a token sequence, concatenated, or the
      error of the first token that does not serialize. */
  function Serialized(ts: seq<Token>, marshal: Marshal): Result<string>
  {
    if ts == [] then Ok("")
    else match Serialized(ts[..|ts| - 1], marshal)
      case Err(e) => Err(e)
      case Ok(s) =>
        match marshal(ts[|ts| - 1])
        case Err(e) => Err(e)
        case Ok(b) => Ok(s + b)
  }

  lemma {:induction false} SerializedSnoc(ts: seq<Token>, t: Token, marshal: Marshal)
    ensures Serialized(ts + [t], marshal)
            == match Serialized(ts, marshal)
               case Err(e) => Err(e)
               case Ok(s) => match marshal(t) case Err(e) => Err(e) case Ok(b) => Ok(s + b)
  {
    assert (ts + [t])[..|ts + [t]| - 1] == ts;
  }

  /** The loop from i with `done` the serialization of toks[i0..i] behaves as a loop from
      i0 with nothing serialized yet. */
  lemma {:induction false} AvLstLoopMeaning(content: string, name: Name, toks: seq<Token>, i0: nat, i: nat, marshal: Marshal)
    requires i0 <= |toks| && i0 <= i <= AvLstStop(toks, name, i0)
    requires Serialized(toks[i0..i], marshal).Ok?
    ensures var j := AvLstStop(toks, name, i0);
      AvLstLoop(content + Serialized(toks[i0..i], marshal).value, name, toks, i, marshal)
      == match Serialized(toks[i0..j], marshal)
         case Err(e) => Err(e)
         case Ok(s) => if j < |toks| && toks[j].Broken? then Err(StreamErr(toks[j].msg)) else Ok(content + s)
    decreases |toks| - i
  {
    var j := AvLstStop(toks, name, i0);
    if i < j {
      var done := Serialized(toks[i0..i], marshal).value;
      var t := toks[i];
      assert Pull(toks, i) == Got(t) && t != End(name);
      match marshal(t)
      case Err(e) =>
        assert Serialized(toks[i0..j], marshal) == Err(e) by {
          assert toks[i0..i + 1] == toks[i0..i] + [t];
          SerializedSnoc(toks[i0..i], t, marshal);
          SerializedErrorSticks(toks, i0, i + 1, j, marshal);
        }
      case Ok(b) =>
        assert Serialized(toks[i0..i + 1], marshal) == Ok(done + b) by {
          assert toks[i0..i + 1] == toks[i0..i] + [t];
          SerializedSnoc(toks[i0..i], t, marshal);
        }
        assert AvLstLoop(content + done, name, toks, i, marshal)
               == AvLstLoop(content + (done + b), name, toks, i + 1, marshal) by {
          assert content + done + b == content + (done + b);
        }
        AvLstLoopMeaning(content, name, toks, i0, i + 1, marshal);
    } else {
      AvLstLoopAtStop(content, name, toks, i0, marshal);
    }
  }

  /** AvLstLoopMeaning once the loop has reached the place where it stops. */
  lemma AvLstLoopAtStop(content: string, name: Name, toks: seq<Token>, i0: nat, marshal: Marshal)
    requires i0 <= |toks| && Serialized(toks[i0..AvLstStop(toks, name, i0)], marshal).Ok?
    ensures var j := AvLstStop(toks, name, i0);
      var s := Serialized(toks[i0..j], marshal).value;
      AvLstLoop(content + s, name, toks, j, marshal)
      == if j < |toks| && toks[j].Broken? then Err(StreamErr(toks[j].msg)) else Ok(content + s)
  {
  }

  /** Once a prefix fails to serialize, every longer prefix fails with the same error. */
  lemma {:induction false} SerializedErrorSticks(toks: seq<Token>, i0: nat, i: nat, j: nat, marshal: Marshal)
    requires i0 <= i <= j <= |toks|
    requires Serialized(toks[i0..i], marshal).Err?
    ensures Serialized(toks[i0..j], marshal) == Serialized(toks[i0..i], marshal)
    decreases j - i
  {
    if i < j {
      assert toks[i0..i + 1] == toks[i0..i] + [toks[i]];
      SerializedSnoc(toks[i0..i], toks[i], marshal);
      SerializedErrorSticks(toks, i0, i + 1, j, marshal);
    }
  }

  /** An avLst decode keeps the serialized start element followed by the serialized
      tokens up to (not including) the first end tag named like the start element, or up
      to the scope end. It fails, leaving RawXML unchanged, exactly when the start element
      or one of those tokens does not serialize (that error) or a tokenizer failure comes
      first. */
  lemma AvLstContent(a0: AAvLst, start: Tag, toks: seq<Token>, marshal: Marshal)
    ensures var j := AvLstStop(toks, start.name, 0);
      var (a, err) := AvLstSpec(a0, start, toks, marshal);
      && (err.None? <==> marshal(Start(start)).Ok? && Serialized(toks[..j], marshal).Ok?
                         && (j == |toks| || !toks[j].Broken?))
      && (err.None? ==> a.rawXML == marshal(Start(start)).value + Serialized(toks[..j], marshal).value)
      && (err.Some? ==> a == a0)
  {
    if marshal(Start(start)).Ok? {
      assert toks[0..0] == [];
      assert marshal(Start(start)).value + "" == marshal(Start(start)).value;
      AvLstLoopMeaning(marshal(Start(start)).value, start.name, toks, 0, 0, marshal);
      assert toks[0..AvLstStop(toks, start.name, 0)] == toks[..AvLstStop(toks, start.name, 0)];
    }
  }

  /** A nested element with the same name ends the capture early: the rest of the
      content is not kept. */
  lemma AvLstNestedSameName(start: Tag, marshal: Marshal)
    requires forall t :: marshal(t) == Ok("<>")
    ensures var inner := Tag(start.name, []);
      var other := Tag(Name("a", "gd"), []);
      AvLstSpec(AAvLst(""), start, [Start(inner), End(start.name), Start(other), End(other.name), End(start.name)], marshal)
      == (AAvLst("<><>"), None)
  {
    var inner := Tag(start.name, []);
    var other := Tag(Name("a", "gd"), []);
    var toks := [Start(inner), End(start.name), Start(other), End(other.name), End(start.name)];
    assert marshal(Start(start)) == Ok("<>");
    assert marshal(Start(inner)) == Ok("<>");
    assert AvLstLoop("<>", start.name, toks, 0, marshal) == AvLstLoop("<>" + "<>", start.name, toks, 1, marshal);
    assert "<>" + "<>" == "<><>";
  }

  /* ================= a:prstGeom ================= */

  /** The preset shape name and its adjust values. */
  datatype APrstGeom = APrstGeom(prst: string, avLst: AAvLst)

  const ZeroPrstGeom := APrstGeom("", AAvLst(""))

  /* ================= pic:spPr ================= */

  datatype PICSpPr = PICSpPr(xfrm: AXfrm, prstGeom: APrstGeom)

  const ZeroSpPr := PICSpPr(ZeroXfrm, ZeroPrstGeom)

  const SpPrDelegated: set<string> := {"xfrm", "prstGeom"}

  /** The token loop of PICSpPr.UnmarshalXML from cursor i. The xfrm child is decoded over
      the current transform and the prstGeom child, by encoding/xml's generic decode
      (decodeGeom), over the current geometry; both errors are dropped. Prst is then taken
      from the prstGeom start tag itself. */
  function SpPrLoop(p: PICSpPr, toks: seq<Token>, i: nat, decodeGeom: Decoder<APrstGeom>): (PICSpPr, Option<Error>)
    requires i <= |toks|
    decreases |toks| - i
  {
    match Pull(toks, i)
    case Eof => (p, None)
    case Fault(e) => (p, Some(e))
    case Got(t) =>
      if IsStartNamed(t, "xfrm") then
        var x := XfrmSpec(p.xfrm, t.tag, Subtree(toks, i + 1)).0;
        SpPrLoop(p.(xfrm := x), toks, After(toks, i + 1), decodeGeom)
      else if IsStartNamed(t, "prstGeom") then
        var g := decodeGeom(p.prstGeom, t.tag, Subtree(toks, i + 1)).0;
        SpPrLoop(p.(prstGeom := g.(prst := GetAtt(t.tag.attrs, "prst"))), toks, After(toks, i + 1), decodeGeom)
      else SpPrLoop(p, toks, i + 1, decodeGeom)
  }

  /** PICSpPr.UnmarshalXML. */
  method DecodeSpPr(p0: PICSpPr, start: Tag, toks: seq<Token>, decodeGeom: Decoder<APrstGeom>)
    returns (p: PICSpPr, err: Option<Error>)
    ensures (p, err) == SpPrLoop(p0, toks, 0, decodeGeom)
  {
    p := p0;
    var i := 0;
    while true
      invariant i <= |toks|
      invariant SpPrLoop(p, toks, i, decodeGeom) == SpPrLoop(p0, toks, 0, decodeGeom)
      decreases |toks| - i
    {
      var q := Pull(toks, i);
      if q.Eof? {
        break;
      }
      if q.Fault? {
        return p, Some(q.err);
      }
      i := i + 1;
      var t := q.tok;
      if t.Start? && t.tag.name.local == "xfrm" {
        var x, _ := DecodeXfrm(p.xfrm, t.tag, Subtree(toks, i));
        p := p.(xfrm := x);
        i := After(toks, i);
      } else if t.Start? && t.tag.name.local == "prstGeom" {
        var (g, _) := decodeGeom(p.prstGeom, t.tag, Subtree(toks, i));
        p := p.(prstGeom := g);
        p := p.(prstGeom := p.prstGeom.(prst := GetAtt(t.tag.attrs, "prst")));
        i := After(toks, i);
      }
    }
    return p, None;
  }

  /** Xfrm after the loop is the decode of the LAST xfrm child over some incoming value. */
  lemma {:induction false} SpPrXfrmLast(p: PICSpPr, toks: seq<Token>, i: nat, decodeGeom: Decoder<APrstGeom>)
    requires i <= |toks|
    ensures var q := SpPrLoop(p, toks, i, decodeGeom).0;
      match LastStart(toks, i, SpPrDelegated, "xfrm")
      case None => q.xfrm == p.xfrm
      case Some(k) => DecodedFrom(q.xfrm, XfrmSpec, TagAt(toks, k), Subtree(toks, k + 1))
    decreases |toks| - i, 1
  {
    match Pull(toks, i)
    case Eof =>
    case Fault(_) =>
    case Got(t) =>
      var j := After(toks, i + 1);
      if IsStartNamed(t, "xfrm") {
        SpPrXfrmLastAt(p, toks, i, decodeGeom);
      } else if IsStartNamed(t, "prstGeom") {
        SpPrXfrmLastGeom(p, toks, i, decodeGeom);
      } else {
        assert Step(toks, i, SpPrDelegated) == i + 1;
        assert LastStart(toks, i, SpPrDelegated, "xfrm") == LastStart(toks, i + 1, SpPrDelegated, "xfrm");
        SpPrXfrmLast(p, toks, i + 1, decodeGeom);
      }
  }

  /** SpPrXfrmLast when the token at i is a prstGeom start tag: Xfrm is not touched. */
  lemma {:induction false} SpPrXfrmLastGeom(p: PICSpPr, toks: seq<Token>, i: nat, decodeGeom: Decoder<APrstGeom>)
    requires i < |toks| && IsStartNamed(toks[i], "prstGeom")
    ensures var q := SpPrLoop(p, toks, i, decodeGeom).0;
      match LastStart(toks, i, SpPrDelegated, "xfrm")
      case None => q.xfrm == p.xfrm
      case Some(k) => DecodedFrom(q.xfrm, XfrmSpec, TagAt(toks, k), Subtree(toks, k + 1))
    decreases |toks| - i, 0
  {
    var j := After(toks, i + 1);
    var tag := TagAt(toks, i);
    var g := decodeGeom(p.prstGeom, tag, Subtree(toks, i + 1)).0;
    var p' := p.(prstGeom := g.(prst := GetAtt(tag.attrs, "prst")));
    assert Step(toks, i, SpPrDelegated) == j;
    assert SpPrLoop(p, toks, i, decodeGeom) == SpPrLoop(p', toks, j, decodeGeom);
    assert LastStart(toks, i, SpPrDelegated, "xfrm") == LastStart(toks, j, SpPrDelegated, "xfrm");
    SpPrXfrmLast(p', toks, j, decodeGeom);
  }

  /** SpPrXfrmLast when the token at i is an xfrm start tag. */
  lemma {:induction false} SpPrXfrmLastAt(p: PICSpPr, toks: seq<Token>, i: nat, decodeGeom: Decoder<APrstGeom>)
    requires i < |toks| && IsStartNamed(toks[i], "xfrm")
    ensures LastStart(toks, i, SpPrDelegated, "xfrm").Some?
    ensures DecodedFrom(SpPrLoop(p, toks, i, decodeGeom).0.xfrm, XfrmSpec,
                        TagAt(toks, LastStart(toks, i, SpPrDelegated, "xfrm").value),
                        Subtree(toks, LastStart(toks, i, SpPrDelegated, "xfrm").value + 1))
    decreases |toks| - i, 0
  {
    var j := After(toks, i + 1);
    var p' := p.(xfrm := XfrmSpec(p.xfrm, TagAt(toks, i), Subtree(toks, i + 1)).0);
    assert Step(toks, i, SpPrDelegated) == j;
    assert SpPrLoop(p, toks, i, decodeGeom) == SpPrLoop(p', toks, j, decodeGeom);
    SpPrXfrmLast(p', toks, j, decodeGeom);
    if LastStart(toks, j, SpPrDelegated, "xfrm").None? {
      assert LastStart(toks, i, SpPrDelegated, "xfrm") == Some(i);
      DecodedFromWitness(SpPrLoop(p, toks, i, decodeGeom).0.xfrm, p.xfrm, XfrmSpec, TagAt(toks, i), Subtree(toks, i + 1));
    } else {
      assert LastStart(toks, i, SpPrDelegated, "xfrm") == LastStart(toks, j, SpPrDelegated, "xfrm");
    }
  }

  /** Each xfrm child is decoded over the transform the earlier ones left, so rot, flipH
      and flipV chain across them: each holds the last value given for it among the
      attributes the xfrm children store, in document order, or is unchanged. */
  lemma {:induction false} SpPrXfrmChain(p: PICSpPr, toks: seq<Token>, i: nat, decodeGeom: Decoder<APrstGeom>)
    requires i <= |toks|
    ensures var x := SpPrLoop(p, toks, i, decodeGeom).0.xfrm;
      var attrs := StartAttrs(toks, i, SpPrDelegated, "xfrm", XfrmStored);
      && x.rot == Setting(attrs, "rot", p.xfrm.rot)
      && x.flipH == Setting(attrs, "flipH", p.xfrm.flipH)
      && x.flipV == Setting(attrs, "flipV", p.xfrm.flipV)
    decreases |toks| - i
  {
    match Pull(toks, i)
    case Eof =>
    case Fault(_) =>
    case Got(t) =>
      var j := After(toks, i + 1);
      var rest := StartAttrs(toks, Step(toks, i, SpPrDelegated), SpPrDelegated, "xfrm", XfrmStored);
      if IsStartNamed(t, "xfrm") {
        var p' := p.(xfrm := XfrmSpec(p.xfrm, t.tag, Subtree(toks, i + 1)).0);
        XfrmDecode(p.xfrm, t.tag, Subtree(toks, i + 1));
        assert Step(toks, i, SpPrDelegated) == j;
        assert SpPrLoop(p, toks, i, decodeGeom) == SpPrLoop(p', toks, j, decodeGeom);
        SpPrXfrmChain(p', toks, j, decodeGeom);
        SettingConcat(XfrmStored(t.tag), rest, "rot", p.xfrm.rot);
        SettingConcat(XfrmStored(t.tag), rest, "flipH", p.xfrm.flipH);
        SettingConcat(XfrmStored(t.tag), rest, "flipV", p.xfrm.flipV);
      } else if IsStartNamed(t, "prstGeom") {
        var g := decodeGeom(p.prstGeom, t.tag, Subtree(toks, i + 1)).0;
        var p' := p.(prstGeom := g.(prst := GetAtt(t.tag.attrs, "prst")));
        assert Step(toks, i, SpPrDelegated) == j;
        assert SpPrLoop(p, toks, i, decodeGeom) == SpPrLoop(p', toks, j, decodeGeom);
        assert StartAttrs(toks, i, SpPrDelegated, "xfrm", XfrmStored) == rest;
        SpPrXfrmChain(p', toks, j, decodeGeom);
      } else {
        assert StartAttrs(toks, i, SpPrDelegated, "xfrm", XfrmStored) == rest;
        SpPrXfrmChain(p, toks, i + 1, decodeGeom);
      }
  }

  /** Two xfrm children are decoded one over the other: the first one's rot survives the
      second, which carries only flipH. */
  lemma SpPrTwoTransforms(rot: int64, flip: int64, decodeGeom: Decoder<APrstGeom>)
    ensures var x := Name("a", "xfrm");
      var first := Tag(x, [Attr(Name("", "rot"), FormatInt(rot))]);
      var second := Tag(x, [Attr(Name("", "flipH"), FormatInt(flip))]);
      SpPrLoop(ZeroSpPr, [Start(first), End(x), Start(second), End(x), End(Name("pic", "spPr"))], 0, decodeGeom)
      == (ZeroSpPr.(xfrm := ZeroXfrm.(rot := rot, flipH := flip)), None)
  {
    var x := Name("a", "xfrm");
    var first := Tag(x, [Attr(Name("", "rot"), FormatInt(rot))]);
    var second := Tag(x, [Attr(Name("", "flipH"), FormatInt(flip))]);
    var toks := [Start(first), End(x), Start(second), End(x), End(Name("pic", "spPr"))];
    FormatIntRoundTrip(rot);
    FormatIntRoundTrip(flip);
    assert After(toks, 1) == 2;
    assert After(toks, 3) == 4;
    assert Subtree(toks, 1) == [End(x)];
    assert Subtree(toks, 3) == [End(x)];
    var one := ZeroXfrm.(rot := rot);
    var two := ZeroXfrm.(rot := rot, flipH := flip);
    assert first.attrs[1..] == [] && second.attrs[1..] == [];
    assert XfrmAttrs(ZeroXfrm, first.attrs) == (one, None);
    assert XfrmAttrs(one, second.attrs) == (two, None);
    assert XfrmLoop(one, [End(x)], 1) == (one, None);
    assert XfrmLoop(two, [End(x)], 1) == (two, None);
    assert XfrmSpec(ZeroXfrm, first, [End(x)]) == (one, None);
    assert XfrmSpec(one, second, [End(x)]) == (two, None);
    assert SpPrLoop(ZeroSpPr.(xfrm := two), toks, 4, decodeGeom) == (ZeroSpPr.(xfrm := two), None);
    assert SpPrLoop(ZeroSpPr.(xfrm := one), toks, 2, decodeGeom) == (ZeroSpPr.(xfrm := two), None);
  }

  /** The loop fails only at a tokenizer failure (child errors are dropped). Whatever the
      generic geometry decode does, Prst ends up as the prst attribute of the LAST
      prstGeom start tag read, and Xfrm is what the decode of the LAST xfrm child yields
      from some incoming value (its error dropped, the partly filled value kept); a field
      whose child never appears is unchanged. Rot, flipH and flipV chain across all the
      xfrm children (SpPrXfrmChain); for off and ext only the last child's decode is
      stated. */
  lemma {:induction false} SpPrChildren(p: PICSpPr, toks: seq<Token>, i: nat, decodeGeom: Decoder<APrstGeom>)
    requires i <= |toks|
    ensures SpPrLoop(p, toks, i, decodeGeom).1 == ScanError(toks, i, SpPrDelegated, NoCheck)
    ensures var q := SpPrLoop(p, toks, i, decodeGeom).0;
      && (match LastStart(toks, i, SpPrDelegated, "prstGeom")
          case None => q.prstGeom == p.prstGeom
          case Some(k) => q.prstGeom.prst == GetAtt(TagAt(toks, k).attrs, "prst"))
      && (match LastStart(toks, i, SpPrDelegated, "xfrm")
          case None => q.xfrm == p.xfrm
          case Some(k) =>
            DecodedFrom(q.xfrm, XfrmSpec, TagAt(toks, k), Subtree(toks, k + 1)))
    ensures var x := SpPrLoop(p, toks, i, decodeGeom).0.xfrm;
      var attrs := StartAttrs(toks, i, SpPrDelegated, "xfrm", XfrmStored);
      && x.rot == Setting(attrs, "rot", p.xfrm.rot)
      && x.flipH == Setting(attrs, "flipH", p.xfrm.flipH)
      && x.flipV == Setting(attrs, "flipV", p.xfrm.flipV)
    decreases |toks| - i
  {
    SpPrXfrmLast(p, toks, i, decodeGeom);
    SpPrXfrmChain(p, toks, i, decodeGeom);
    match Pull(toks, i)
    case Eof =>
    case Fault(_) =>
    case Got(t) =>
      var j := After(toks, i + 1);
      if IsStartNamed(t, "xfrm") {
        SpPrChildren(p.(xfrm := XfrmSpec(p.xfrm, t.tag, Subtree(toks, i + 1)).0), toks, j, decodeGeom);
      } else if IsStartNamed(t, "prstGeom") {
        var g := decodeGeom(p.prstGeom, t.tag, Subtree(toks, i + 1)).0;
        SpPrChildren(p.(prstGeom := g.(prst := GetAtt(t.tag.attrs, "prst"))), toks, j, decodeGeom);
      } else {
        SpPrChildren(p, toks, i + 1, decodeGeom);
      }
  }
}
