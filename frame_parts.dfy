/** The small elements of a WordprocessingML drawing frame (ECMA-376 Part 1, section
    20.4): extent, effectExtent, docPr, cNvGraphicFramePr with its graphicFrameLocks,
    positionH / positionV, simplePos and wrapSquare, and the decoders of structdrawing.go
    for those that have one. */
module FrameParts {
  import opened Xml
  import opened Strconv

  /* ================= wp:extent ================= */

  /** Width and height in English Metric Units (1/914400 inch). */
  datatype WPExtent = WPExtent(cx: int64, cy: int64)

  const ZeroExtent := WPExtent(0, 0)

  /** The attribute loop of WPExtent.UnmarshalXML: cx and cy are parsed and stored (the
      value is stored even when it is malformed); the first malformed one ends the loop. */
  function ExtentAttrs(r: WPExtent, attrs: seq<Attr>): (WPExtent, Option<Error>)
    decreases |attrs|
  {
    if attrs == [] then (r, None)
    else if attrs[0].name.local == "cx" then
      var n := ParseInt(attrs[0].value);
      if n.err.Some? then (r.(cx := n.value), n.err) else ExtentAttrs(r.(cx := n.value), attrs[1..])
    else if attrs[0].name.local == "cy" then
      var n := ParseInt(attrs[0].value);
      if n.err.Some? then (r.(cy := n.value), n.err) else ExtentAttrs(r.(cy := n.value), attrs[1..])
    else ExtentAttrs(r, attrs[1..])
  }

  /** "Consume the end element": one d.Token() call, whose error (io.EOF included) is
      returned. */
  function ReadEnd(toks: seq<Token>): Option<Error>
  {
    match Pull(toks, 0)
    case Eof => Some(EndOfStream)
    case Fault(e) => Some(e)
    case Got(_) => None
  }

  function ExtentSpec(r0: WPExtent, start: Tag, toks: seq<Token>): (WPExtent, Option<Error>)
  {
    var (r, err) := ExtentAttrs(r0, start.attrs);
    if err.Some? then (r, err) else (r, ReadEnd(toks))
  }

  /** WPExtent.UnmarshalXML. */
  method DecodeExtent(r0: WPExtent, start: Tag, toks: seq<Token>) returns (r: WPExtent, err: Option<Error>)
    ensures (r, err) == ExtentSpec(r0, start, toks)
  {
    r := r0;
    for k := 0 to |start.attrs|
      invariant ExtentAttrs(r, start.attrs[k..]) == ExtentAttrs(r0, start.attrs)
    {
      var attr := start.attrs[k];
      assert start.attrs[k..][1..] == start.attrs[k + 1..];
      if attr.name.local == "cx" {
        var n := ParseInt(attr.value);
        r := r.(cx := n.value);
        if n.err.Some? {
          return r, n.err;
        }
      } else if attr.name.local == "cy" {
        var n := ParseInt(attr.value);
        r := r.(cy := n.value);
        if n.err.Some? {
          return r, n.err;
        }
      }
    }
    // Consume the end element
    var p := Pull(toks, 0);
    if p.Eof? {
      return r, Some(EndOfStream);
    }
    if p.Fault? {
      return r, Some(p.err);
    }
    return r, None;
  }

  /** The extent attribute loop fails at the first malformed cx / cy. Whether it fails or
      not, each field holds the last value given for it among the attributes handled,
      the malformed one included (it is stored before it is checked), or is unchanged;
      on success that is every attribute. */
  lemma {:induction false} ExtentAttrsMeaning(r: WPExtent, attrs: seq<Attr>)
    ensures ExtentAttrs(r, attrs).1 == FirstMalformed(attrs, {"cx", "cy"})
    ensures var stored := StoredAttrs(attrs, {"cx", "cy"});
      ExtentAttrs(r, attrs).0 == WPExtent(Setting(stored, "cx", r.cx), Setting(stored, "cy", r.cy))
    ensures ExtentAttrs(r, attrs).1.None? ==>
              ExtentAttrs(r, attrs).0 == WPExtent(Setting(attrs, "cx", r.cx), Setting(attrs, "cy", r.cy))
    decreases |attrs|
  {
    if attrs != [] {
      var n := ParseInt(attrs[0].value);
      HandledAttrsCons(attrs, {"cx", "cy"});
      var rest := StoredAttrs(attrs[1..], {"cx", "cy"});
      SettingPrepend(attrs[0], rest, "cx", r.cx);
      SettingPrepend(attrs[0], rest, "cy", r.cy);
      SettingOne(attrs[0], "cx", r.cx);
      SettingOne(attrs[0], "cy", r.cy);
      if attrs[0].name.local == "cx" {
        ExtentAttrsMeaning(r.(cx := n.value), attrs[1..]);
      } else if attrs[0].name.local == "cy" {
        ExtentAttrsMeaning(r.(cy := n.value), attrs[1..]);
      } else {
        ExtentAttrsMeaning(r, attrs[1..]);
      }
      MalformedIndexAll(attrs, {"cx", "cy"});
    }
  }

  /** An extent decode succeeds exactly when every cx / cy attribute is a base-10 int64
      and the one token after the start tag is read; it then holds the last cx and cy
      values, and a field whose attribute is absent keeps its value (0 in a fresh
      record). A failure returns the first malformed attribute's error and leaves the
      record as the attributes up to that one (its own value stored) made it, which is
      what a parent that drops the error keeps. The decode reads exactly one token. */
  lemma ExtentDecode(r0: WPExtent, start: Tag, toks: seq<Token>)
    ensures var (r, err) := ExtentSpec(r0, start, toks);
      && (err.None? <==> !SomeMalformed(start.attrs, {"cx", "cy"}) && |toks| > 0 && !toks[0].Broken?)
      && (SomeMalformed(start.attrs, {"cx", "cy"}) ==> err == FirstMalformed(start.attrs, {"cx", "cy"}))
      && (err.None? ==> r == WPExtent(Setting(start.attrs, "cx", r0.cx), Setting(start.attrs, "cy", r0.cy)))
      && r == WPExtent(Setting(StoredAttrs(start.attrs, {"cx", "cy"}), "cx", r0.cx),
                       Setting(StoredAttrs(start.attrs, {"cx", "cy"}), "cy", r0.cy))
    ensures |toks| > 0 ==> ExtentSpec(r0, start, toks) == ExtentSpec(r0, start, toks[..1])
  {
    ExtentAttrsMeaning(r0, start.attrs);
  }

  /** Decoding the base-10 rendering of any two int64 values gives them back. */
  lemma ExtentRoundTrip(space: string, cx: int64, cy: int64)
    ensures var name := Name(space, "extent");
      var start := Tag(name, [Attr(Name("", "cx"), FormatInt(cx)), Attr(Name("", "cy"), FormatInt(cy))]);
      ExtentSpec(ZeroExtent, start, [End(name)]) == (WPExtent(cx, cy), None)
  {
    FormatIntRoundTrip(cx);
    FormatIntRoundTrip(cy);
    var attrs := [Attr(Name("", "cx"), FormatInt(cx)), Attr(Name("", "cy"), FormatInt(cy))];
    assert attrs[1..][1..] == [];
    assert ExtentAttrs(ZeroExtent, attrs) == ExtentAttrs(WPExtent(cx, 0), attrs[1..]);
    assert ExtentAttrs(WPExtent(cx, 0), attrs[1..]) == ExtentAttrs(WPExtent(cx, cy), []);
  }

  /** A malformed cx is an error, as in the `cx="abc"` example. */
  lemma ExtentRejectsText(name: Name)
    ensures ExtentSpec(ZeroExtent, Tag(name, [Attr(Name("", "cx"), "abc")]), [End(name)])
            == (ZeroExtent, Some(SyntaxErr("abc")))
  {
    assert !IsDecimal("abc") by {
      assert !IsDigit("abc"[0]);
    }
  }

  /* ================= wp:effectExtent ================= */

  /** Extra space on each side for effects, in EMU. */
  datatype WPEffectExtent = WPEffectExtent(l: int64, t: int64, r: int64, b: int64)

  const ZeroEffectExtent := WPEffectExtent(0, 0, 0, 0)

  /** The attributes naming the four sides. */
  const Sides: set<string> := {"l", "t", "r", "b"}

  /** The attribute loop of WPEffectExtent.UnmarshalXML (l, t, r, b). */
  function EffectExtentAttrs(e: WPEffectExtent, attrs: seq<Attr>): (WPEffectExtent, Option<Error>)
    decreases |attrs|
  {
    if attrs == [] then (e, None)
    else
      var n := ParseInt(attrs[0].value);
      var local := attrs[0].name.local;
      if local == "l" then
        if n.err.Some? then (e.(l := n.value), n.err) else EffectExtentAttrs(e.(l := n.value), attrs[1..])
      else if local == "t" then
        if n.err.Some? then (e.(t := n.value), n.err) else EffectExtentAttrs(e.(t := n.value), attrs[1..])
      else if local == "r" then
        if n.err.Some? then (e.(r := n.value), n.err) else EffectExtentAttrs(e.(r := n.value), attrs[1..])
      else if local == "b" then
        if n.err.Some? then (e.(b := n.value), n.err) else EffectExtentAttrs(e.(b := n.value), attrs[1..])
      else EffectExtentAttrs(e, attrs[1..])
  }

  function EffectExtentSpec(e0: WPEffectExtent, start: Tag, toks: seq<Token>): (WPEffectExtent, Option<Error>)
  {
    var (e, err) := EffectExtentAttrs(e0, start.attrs);
    if err.Some? then (e, err) else (e, ReadEnd(toks))
  }

  /** WPEffectExtent.UnmarshalXML. */
  method DecodeEffectExtent(e0: WPEffectExtent, start: Tag, toks: seq<Token>) returns (e: WPEffectExtent, err: Option<Error>)
    ensures (e, err) == EffectExtentSpec(e0, start, toks)
  {
    e := e0;
    for k := 0 to |start.attrs|
      invariant EffectExtentAttrs(e, start.attrs[k..]) == EffectExtentAttrs(e0, start.attrs)
    {
      var attr := start.attrs[k];
      assert start.attrs[k..][1..] == start.attrs[k + 1..];
      if attr.name.local == "l" {
        var n := ParseInt(attr.value);
        e := e.(l := n.value);
        if n.err.Some? {
          return e, n.err;
        }
      } else if attr.name.local == "t" {
        var n := ParseInt(attr.value);
        e := e.(t := n.value);
        if n.err.Some? {
          return e, n.err;
        }
      } else if attr.name.local == "r" {
        var n := ParseInt(attr.value);
        e := e.(r := n.value);
        if n.err.Some? {
          return e, n.err;
        }
      } else if attr.name.local == "b" {
        var n := ParseInt(attr.value);
        e := e.(b := n.value);
        if n.err.Some? {
          return e, n.err;
        }
      }
    }
    // Consume the end element
    var p := Pull(toks, 0);
    if p.Eof? {
      return e, Some(EndOfStream);
    }
    if p.Fault? {
      return e, Some(p.err);
    }
    return e, None;
  }

  lemma {:induction false} EffectExtentAttrsError(e: WPEffectExtent, attrs: seq<Attr>)
    ensures EffectExtentAttrs(e, attrs).1 == FirstMalformed(attrs, Sides)
    decreases |attrs|
  {
    if attrs != [] {
      var n := ParseInt(attrs[0].value);
      var local := attrs[0].name.local;
      if local == "l" {
        EffectExtentAttrsError(e.(l := n.value), attrs[1..]);
      } else if local == "t" {
        EffectExtentAttrsError(e.(t := n.value), attrs[1..]);
      } else if local == "r" {
        EffectExtentAttrsError(e.(r := n.value), attrs[1..]);
      } else if local == "b" {
        EffectExtentAttrsError(e.(b := n.value), attrs[1..]);
      } else {
        EffectExtentAttrsError(e, attrs[1..]);
      }
    }
  }

  /** Each side holds the last value given for it among the attributes handled (the
      malformed one that ends the loop included), or is unchanged; on success that is
      every attribute. */
  lemma {:induction false} EffectExtentAttrsMeaning(e: WPEffectExtent, attrs: seq<Attr>)
    ensures var stored := StoredAttrs(attrs, Sides);
      EffectExtentAttrs(e, attrs).0 == WPEffectExtent(Setting(stored, "l", e.l), Setting(stored, "t", e.t),
                                                      Setting(stored, "r", e.r), Setting(stored, "b", e.b))
    ensures EffectExtentAttrs(e, attrs).1.None? ==>
              EffectExtentAttrs(e, attrs).0 == WPEffectExtent(Setting(attrs, "l", e.l), Setting(attrs, "t", e.t),
                                                              Setting(attrs, "r", e.r), Setting(attrs, "b", e.b))
    decreases |attrs|
  {
    if attrs != [] {
      var n := ParseInt(attrs[0].value);
      var local := attrs[0].name.local;
      HandledAttrsCons(attrs, Sides);
      var rest := StoredAttrs(attrs[1..], Sides);
      SettingPrepend(attrs[0], rest, "l", e.l);
      SettingPrepend(attrs[0], rest, "t", e.t);
      SettingPrepend(attrs[0], rest, "r", e.r);
      SettingPrepend(attrs[0], rest, "b", e.b);
      SettingOne(attrs[0], "l", e.l);
      SettingOne(attrs[0], "t", e.t);
      SettingOne(attrs[0], "r", e.r);
      SettingOne(attrs[0], "b", e.b);
      if local !in Sides {
        assert EffectExtentAttrs(e, attrs) == EffectExtentAttrs(e, attrs[1..]);
        EffectExtentAttrsMeaning(e, attrs[1..]);
      } else {
        var e' := if local == "l" then e.(l := n.value)
                  else if local == "t" then e.(t := n.value)
                  else if local == "r" then e.(r := n.value)
                  else e.(b := n.value);
        if n.err.Some? {
          assert StoredAttrs(attrs, Sides) == [attrs[0]];
          assert EffectExtentAttrs(e, attrs).0 == e';
        } else {
          assert StoredAttrs(attrs, Sides) == [attrs[0]] + rest;
          assert EffectExtentAttrs(e, attrs) == EffectExtentAttrs(e', attrs[1..]);
          EffectExtentAttrsMeaning(e', attrs[1..]);
        }
      }
    }
    EffectExtentAttrsError(e, attrs);
    MalformedIndexAll(attrs, Sides);
  }

  /** As ExtentDecode, for the four sides l, t, r, b: on failure too, each side is what
      the attributes up to the malformed one left in it. */
  lemma EffectExtentDecode(e0: WPEffectExtent, start: Tag, toks: seq<Token>)
    ensures var (e, err) := EffectExtentSpec(e0, start, toks);
      && (err.None? <==> !SomeMalformed(start.attrs, Sides) && |toks| > 0 && !toks[0].Broken?)
      && (SomeMalformed(start.attrs, Sides) ==> err == FirstMalformed(start.attrs, Sides))
      && (err.None? ==> e == WPEffectExtent(Setting(start.attrs, "l", e0.l), Setting(start.attrs, "t", e0.t),
                                            Setting(start.attrs, "r", e0.r), Setting(start.attrs, "b", e0.b)))
      && (var stored := StoredAttrs(start.attrs, Sides);
          e == WPEffectExtent(Setting(stored, "l", e0.l), Setting(stored, "t", e0.t),
                              Setting(stored, "r", e0.r), Setting(stored, "b", e0.b)))
    ensures |toks| > 0 ==> EffectExtentSpec(e0, start, toks) == EffectExtentSpec(e0, start, toks[..1])
  {
    EffectExtentAttrsError(e0, start.attrs);
    EffectExtentAttrsMeaning(e0, start.attrs);
  }

  /* ================= wp:docPr ================= */

  /** Drawing object properties: a numeric id and a name. */
  datatype WPDocPr = WPDocPr(id: int64, name: string)

  const ZeroDocPr := WPDocPr(0, "")

  /** The attribute loop of WPDocPr.UnmarshalXML: unlike the extents, a malformed id is
      not stored; name is copied verbatim. */
  function DocPrAttrs(r: WPDocPr, attrs: seq<Attr>): (WPDocPr, Option<Error>)
    decreases |attrs|
  {
    if attrs == [] then (r, None)
    else if attrs[0].name.local == "id" then
      var n := ParseInt(attrs[0].value);
      if n.err.Some? then (r, n.err) else DocPrAttrs(r.(id := n.value), attrs[1..])
    else if attrs[0].name.local == "name" then DocPrAttrs(r.(name := attrs[0].value), attrs[1..])
    else DocPrAttrs(r, attrs[1..])
  }

  function DocPrSpec(r0: WPDocPr, start: Tag, toks: seq<Token>): (WPDocPr, Option<Error>)
  {
    var (r, err) := DocPrAttrs(r0, start.attrs);
    if err.Some? then (r, err) else (r, ReadEnd(toks))
  }

  /** WPDocPr.UnmarshalXML. */
  method DecodeDocPr(r0: WPDocPr, start: Tag, toks: seq<Token>) returns (r: WPDocPr, err: Option<Error>)
    ensures (r, err) == DocPrSpec(r0, start, toks)
  {
    r := r0;
    for k := 0 to |start.attrs|
      invariant DocPrAttrs(r, start.attrs[k..]) == DocPrAttrs(r0, start.attrs)
    {
      var attr := start.attrs[k];
      assert start.attrs[k..][1..] == start.attrs[k + 1..];
      if attr.name.local == "id" {
        var id := ParseInt(attr.value);
        if id.err.Some? {
          return r, id.err;
        }
        r := r.(id := id.value);
      } else if attr.name.local == "name" {
        r := r.(name := attr.value);
      }
    }
    // Consume the end element
    var p := Pull(toks, 0);
    if p.Eof? {
      return r, Some(EndOfStream);
    }
    if p.Fault? {
      return r, Some(p.err);
    }
    return r, None;
  }

  /** The docPr attribute loop fails at the first malformed id. Whether it fails or not,
      id and name hold the last values given among the attributes ahead of that id (a
      malformed id is checked before it is stored), or are unchanged; on success that is
      every attribute. */
  lemma {:induction false} DocPrAttrsMeaning(r: WPDocPr, attrs: seq<Attr>)
    ensures DocPrAttrs(r, attrs).1 == FirstMalformed(attrs, {"id"})
    ensures var checked := CheckedAttrs(attrs, {"id"});
      DocPrAttrs(r, attrs).0 == WPDocPr(Setting(checked, "id", r.id), TextSetting(checked, "name", r.name))
    ensures DocPrAttrs(r, attrs).1.None? ==>
              DocPrAttrs(r, attrs).0 == WPDocPr(Setting(attrs, "id", r.id), TextSetting(attrs, "name", r.name))
    decreases |attrs|
  {
    if attrs != [] {
      var n := ParseInt(attrs[0].value);
      HandledAttrsCons(attrs, {"id"});
      var rest := CheckedAttrs(attrs[1..], {"id"});
      SettingPrepend(attrs[0], rest, "id", r.id);
      TextSettingPrepend(attrs[0], rest, "name", r.name);
      MalformedIndexAll(attrs, {"id"});
      if attrs[0].name.local == "id" {
        if n.err.None? {
          DocPrAttrsMeaning(r.(id := n.value), attrs[1..]);
        }
      } else if attrs[0].name.local == "name" {
        DocPrAttrsMeaning(r.(name := attrs[0].value), attrs[1..]);
      } else {
        DocPrAttrsMeaning(r, attrs[1..]);
      }
    }
  }

  /** A docPr decode fails exactly on a malformed id (returning its error) or when the
      token after the start tag cannot be read; on success id and name are the last
      attributes' values, or unchanged when absent. On failure they are what the
      attributes ahead of the malformed id left, the docPr a parent that drops the error
      keeps. */
  lemma DocPrDecode(r0: WPDocPr, start: Tag, toks: seq<Token>)
    ensures var (r, err) := DocPrSpec(r0, start, toks);
      && (err.None? <==> !SomeMalformed(start.attrs, {"id"}) && |toks| > 0 && !toks[0].Broken?)
      && (SomeMalformed(start.attrs, {"id"}) ==> err == FirstMalformed(start.attrs, {"id"}))
      && (err.None? ==> r == WPDocPr(Setting(start.attrs, "id", r0.id), TextSetting(start.attrs, "name", r0.name)))
      && (var checked := CheckedAttrs(start.attrs, {"id"});
          r == WPDocPr(Setting(checked, "id", r0.id), TextSetting(checked, "name", r0.name)))
  {
    DocPrAttrsMeaning(r0, start.attrs);
  }

  /* ================= wp:cNvGraphicFramePr / a:graphicFrameLocks ================= */

  datatype AGraphicFrameLocks = AGraphicFrameLocks(noChangeAspect: int64)

  datatype WPCNvGraphicFramePr = WPCNvGraphicFramePr(locks: Option<AGraphicFrameLocks>)

  const ZeroCNvGraphicFramePr := WPCNvGraphicFramePr(None)

  const FramePrDelegated: set<string> := {"graphicFrameLocks"}

  /** The error a graphicFrameLocks start tag makes the loop return: its noChangeAspect
      attribute (read with getAtt, so "" when absent) does not parse. */
  function LockCheck(tag: Tag): Option<Error>
  {
    if tag.name.local == "graphicFrameLocks" then ParseInt(GetAtt(tag.attrs, "noChangeAspect")).err else None
  }

  /** The token loop of WPCNvGraphicFramePr.UnmarshalXML from cursor i. The generic
      decode of the lock element has no effect that survives (its only field is
      overwritten just after, its error is dropped), so it only consumes the subtree. */
  function FramePrLoop(w: WPCNvGraphicFramePr, toks: seq<Token>, i: nat): (WPCNvGraphicFramePr, Option<Error>)
    requires i <= |toks|
    decreases |toks| - i
  {
    match Pull(toks, i)
    case Eof => (w, None)
    case Fault(e) => (w, Some(e))
    case Got(t) =>
      if IsStartNamed(t, "graphicFrameLocks") then
        var n := ParseInt(GetAtt(t.tag.attrs, "noChangeAspect"));
        if n.err.Some? then (w, n.err)
        else FramePrLoop(w.(locks := Some(AGraphicFrameLocks(n.value))), toks, After(toks, i + 1))
      else FramePrLoop(w, toks, i + 1)
  }

  /** WPCNvGraphicFramePr.UnmarshalXML. */
  method DecodeCNvGraphicFramePr(w0: WPCNvGraphicFramePr, start: Tag, toks: seq<Token>)
    returns (w: WPCNvGraphicFramePr, err: Option<Error>)
    ensures (w, err) == FramePrLoop(w0, toks, 0)
  {
    w := w0;
    var i := 0;
    while true
      invariant i <= |toks|
      invariant FramePrLoop(w, toks, i) == FramePrLoop(w0, toks, 0)
      decreases |toks| - i
    {
      var p := Pull(toks, i);
      if p.Eof? {
        break;
      }
      if p.Fault? {
        return w, Some(p.err);
      }
      i := i + 1;
      var t := p.tok;
      if t.Start? && t.tag.name.local == "graphicFrameLocks" {
        // generic decode of the lock element: consumes its subtree, error dropped
        i := After(toks, i);
        var n := ParseInt(GetAtt(t.tag.attrs, "noChangeAspect"));
        if n.err.Some? {
          return w, n.err;
        }
        w := w.(locks := Some(AGraphicFrameLocks(n.value)));
      }
    }
    return w, None;
  }

  /** The loop fails exactly at a tokenizer failure or at the first graphicFrameLocks
      whose noChangeAspect does not parse, and returns that error unchanged. */
  lemma {:induction false} FramePrErrors(w: WPCNvGraphicFramePr, toks: seq<Token>, i: nat)
    requires i <= |toks|
    ensures FramePrLoop(w, toks, i).1 == ScanError(toks, i, FramePrDelegated, LockCheck)
    decreases |toks| - i
  {
    match Pull(toks, i)
    case Eof =>
    case Fault(_) =>
    case Got(t) =>
      if IsStartNamed(t, "graphicFrameLocks") {
        var n := ParseInt(GetAtt(t.tag.attrs, "noChangeAspect"));
        if n.err.None? {
          FramePrErrors(w.(locks := Some(AGraphicFrameLocks(n.value))), toks, After(toks, i + 1));
        }
      } else {
        FramePrErrors(w, toks, i + 1);
      }
  }

  /** Attach after recurse: on success, Locks is set exactly when a graphicFrameLocks child
      was seen, and then carries the integer value of the LAST such child's own
      noChangeAspect attribute; otherwise it is unchanged. */
  lemma {:induction false} FramePrLocks(w: WPCNvGraphicFramePr, toks: seq<Token>, i: nat)
    requires i <= |toks|
    ensures FramePrLoop(w, toks, i).1.None? ==>
      FramePrLoop(w, toks, i).0.locks ==
        match LastStart(toks, i, FramePrDelegated, "graphicFrameLocks")
        case None => w.locks
        case Some(k) => Some(AGraphicFrameLocks(ParseInt(GetAtt(TagAt(toks, k).attrs, "noChangeAspect")).value))
    decreases |toks| - i
  {
    match Pull(toks, i)
    case Eof =>
    case Fault(_) =>
    case Got(t) =>
      if IsStartNamed(t, "graphicFrameLocks") {
        var n := ParseInt(GetAtt(t.tag.attrs, "noChangeAspect"));
        if n.err.None? {
          FramePrLocks(w.(locks := Some(AGraphicFrameLocks(n.value))), toks, After(toks, i + 1));
        }
      } else {
        FramePrLocks(w, toks, i + 1);
      }
  }

  /** A graphicFrameLocks without noChangeAspect is an error (Atoi of ""), and Locks is
      left unset. */
  lemma FramePrMissingFlag(name: Name, w: WPCNvGraphicFramePr)
    ensures var lock := Name("a", "graphicFrameLocks");
      FramePrLoop(w, [Start(Tag(lock, [])), End(lock), End(name)], 0) == (w, Some(SyntaxErr("")))
  {
  }

  /* ================= wp:positionH / wp:positionV ================= */

  /** WPPositionH and WPPositionV have the same fields and the same decoder
      (structdrawing.go:881-918 and 920-957); one type models both. */
  datatype Position = Position(relativeFrom: string, posOffset: int64)

  const ZeroPosition := Position("", 0)

  const PositionDelegated: set<string> := {"posOffset"}

  /** The attribute loop: relativeFrom is copied verbatim. */
  function PositionAttrs(r: Position, attrs: seq<Attr>): Position
    decreases |attrs|
  {
    if attrs == [] then r
    else if attrs[0].name.local == "relativeFrom" then PositionAttrs(r.(relativeFrom := attrs[0].value), attrs[1..])
    else PositionAttrs(r, attrs[1..])
  }

  /** The token loop from cursor i; decodeInt is encoding/xml's generic decode of an
      int64 from the posOffset element's text, whose error IS returned. */
  function PositionLoop(r: Position, toks: seq<Token>, i: nat, decodeInt: Decoder<int64>): (Position, Option<Error>)
    requires i <= |toks|
    decreases |toks| - i
  {
    match Pull(toks, i)
    case Eof => (r, None)
    case Fault(e) => (r, Some(e))
    case Got(t) =>
      if IsStartNamed(t, "posOffset") then
        var (v, err) := decodeInt(r.posOffset, t.tag, Subtree(toks, i + 1));
        if err.Some? then (r.(posOffset := v), err)
        else PositionLoop(r.(posOffset := v), toks, After(toks, i + 1), decodeInt)
      else PositionLoop(r, toks, i + 1, decodeInt)
  }

  function PositionSpec(r0: Position, start: Tag, toks: seq<Token>, decodeInt: Decoder<int64>): (Position, Option<Error>)
  {
    PositionLoop(PositionAttrs(r0, start.attrs), toks, 0, decodeInt)
  }

  /** WPPositionH.UnmarshalXML and WPPositionV.UnmarshalXML. */
  method DecodePosition(r0: Position, start: Tag, toks: seq<Token>, decodeInt: Decoder<int64>)
    returns (r: Position, err: Option<Error>)
    ensures (r, err) == PositionSpec(r0, start, toks, decodeInt)
  {
    r := r0;
    for k := 0 to |start.attrs|
      invariant PositionAttrs(r, start.attrs[k..]) == PositionAttrs(r0, start.attrs)
    {
      assert start.attrs[k..][1..] == start.attrs[k + 1..];
      if start.attrs[k].name.local == "relativeFrom" {
        r := r.(relativeFrom := start.attrs[k].value);
      }
    }
    var i := 0;
    while true
      invariant i <= |toks|
      invariant PositionLoop(r, toks, i, decodeInt) == PositionSpec(r0, start, toks, decodeInt)
      decreases |toks| - i
    {
      var p := Pull(toks, i);
      if p.Eof? {
        break;
      }
      if p.Fault? {
        return r, Some(p.err);
      }
      i := i + 1;
      var t := p.tok;
      if t.Start? && t.tag.name.local == "posOffset" {
        var (v, e) := decodeInt(r.posOffset, t.tag, Subtree(toks, i));
        r := r.(posOffset := v);
        if e.Some? {
          return r, e;
        }
        i := After(toks, i);
      }
    }
    return r, None;
  }

  lemma {:induction false} PositionAttrsMeaning(r: Position, attrs: seq<Attr>)
    ensures PositionAttrs(r, attrs) == r.(relativeFrom := TextSetting(attrs, "relativeFrom", r.relativeFrom))
    decreases |attrs|
  {
    if attrs != [] {
      if attrs[0].name.local == "relativeFrom" {
        PositionAttrsMeaning(r.(relativeFrom := attrs[0].value), attrs[1..]);
      } else {
        PositionAttrsMeaning(r, attrs[1..]);
      }
    }
  }

  /** The loop never changes relativeFrom; on success, posOffset is unchanged when no
      posOffset child was seen, and otherwise is what the generic decode produced for the
      LAST posOffset child. */
  lemma {:induction false} PositionOffset(r: Position, toks: seq<Token>, i: nat, decodeInt: Decoder<int64>)
    requires i <= |toks|
    ensures PositionLoop(r, toks, i, decodeInt).0.relativeFrom == r.relativeFrom
    ensures var (p, err) := PositionLoop(r, toks, i, decodeInt);
      var last := LastStart(toks, i, PositionDelegated, "posOffset");
      && (err.None? && last.None? ==> p.posOffset == r.posOffset)
      && (err.None? && last.Some? ==>
            DecodedFrom(p.posOffset, decodeInt, TagAt(toks, last.value), Subtree(toks, last.value + 1)))
    decreases |toks| - i
  {
    match Pull(toks, i)
    case Eof =>
    case Fault(_) =>
    case Got(t) =>
      if IsStartNamed(t, "posOffset") {
        var (v, err) := decodeInt(r.posOffset, t.tag, Subtree(toks, i + 1));
        if err.None? {
          var j := After(toks, i + 1);
          assert PositionLoop(r, toks, i, decodeInt) == PositionLoop(r.(posOffset := v), toks, j, decodeInt);
          PositionOffset(r.(posOffset := v), toks, j, decodeInt);
          assert Step(toks, i, PositionDelegated) == j;
          if LastStart(toks, j, PositionDelegated, "posOffset").None? {
            assert LastStart(toks, i, PositionDelegated, "posOffset") == Some(i);
            assert TagAt(toks, i) == t.tag;
            assert v == decodeInt(r.posOffset, TagAt(toks, i), Subtree(toks, i + 1)).0;
          }
        }
      } else {
        PositionOffset(r, toks, i + 1, decodeInt);
      }
  }

  /** A posOffset decode error is returned by the position decoder: the first posOffset
      child whose generic decode fails ends the decode with that error. */
  lemma PositionOffsetError(r: Position, pos: Tag, body: seq<Token>, rest: seq<Token>, decodeInt: Decoder<int64>)
    requires pos.name.local == "posOffset"
    requires ScopeEnd([Start(pos)] + body + rest, 1, 0) == 1 + |body|
    requires decodeInt(r.posOffset, pos, body).1.Some?
    ensures PositionLoop(r, [Start(pos)] + body + rest, 0, decodeInt)
            == (r.(posOffset := decodeInt(r.posOffset, pos, body).0), decodeInt(r.posOffset, pos, body).1)
  {
    var toks := [Start(pos)] + body + rest;
    assert Subtree(toks, 1) == body;
  }

  /** The example of a horizontal position relative to the column with offset 914400,
      given that the generic integer decode reads 914400 from the posOffset text. */
  lemma PositionExample(decodeInt: Decoder<int64>)
    ensures var h := Name("wp", "positionH");
      var off := Tag(Name("wp", "posOffset"), []);
      var body := [CharData("914400"), End(Name("wp", "posOffset"))];
      decodeInt(0, off, body) == (914400, None) ==>
        PositionSpec(ZeroPosition, Tag(h, [Attr(Name("", "relativeFrom"), "column")]),
                     [Start(off)] + body + [End(h)], decodeInt)
        == (Position("column", 914400), None)
  {
    var h := Name("wp", "positionH");
    var off := Tag(Name("wp", "posOffset"), []);
    var body := [CharData("914400"), End(Name("wp", "posOffset"))];
    var toks := [Start(off)] + body + [End(h)];
    assert ScopeEnd(toks, 1, 0) == 3;
    assert Subtree(toks, 1) == body;
    assert After(toks, 1) == 3;
    var attrs := [Attr(Name("", "relativeFrom"), "column")];
    assert PositionAttrs(ZeroPosition, attrs) == PositionAttrs(Position("column", 0), attrs[1..]);
    assert attrs[1..] == [];
    if decodeInt(0, off, body) == (914400, None) {
      assert PositionLoop(Position("column", 0), toks, 0, decodeInt)
             == PositionLoop(Position("column", 914400), toks, 3, decodeInt);
      assert PositionLoop(Position("column", 914400), toks, 3, decodeInt)
             == PositionLoop(Position("column", 914400), toks, 4, decodeInt);
    }
  }

  /* ================= wp:simplePos and wp:wrapSquare (decoded in place by the anchor) ================= */

  datatype WPSimplePos = WPSimplePos(x: int64, y: int64)

  datatype WPWrapSquare = WPWrapSquare(wrapText: string)
}
