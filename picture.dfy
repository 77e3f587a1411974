/** The picture inside a drawing (DrawingML, ECMA-376 Part 1, sections 20.1.2 and 20.2):
    a:graphic holds a:graphicData, which holds pic:pic with its non-visual properties
    (pic:nvPicPr), its image fill (pic:blipFill with a:blip) and its shape properties
    (pic:spPr). */
module Picture {
  import opened Xml
  import opened Strconv
  import opened Shape

  /* ================= a:blip ================= */

  /** Opacity of the image, in thousandths of a percent. */
  datatype AAlphaModFix = AAlphaModFix(amount: int64)

  /** The image: embed is the relationship id of the picture part. */
  datatype ABlip = ABlip(embed: string, cstate: string, alphaModFix: Option<AAlphaModFix>)

  const ZeroBlip := ABlip("", "", None)

  /** The attribute loop of ABlip.UnmarshalXML: embed and cstate are copied verbatim. */
  function BlipAttrs(a: ABlip, attrs: seq<Attr>): ABlip
    decreases |attrs|
  {
    if attrs == [] then a
    else if attrs[0].name.local == "embed" then BlipAttrs(a.(embed := attrs[0].value), attrs[1..])
    else if attrs[0].name.local == "cstate" then BlipAttrs(a.(cstate := attrs[0].value), attrs[1..])
    else BlipAttrs(a, attrs[1..])
  }

  /** The error an alphaModFix start tag makes the loop return: its amt attribute (read
      with getAtt, so "" when absent) does not parse. */
  function AmtCheck(tag: Tag): Option<Error>
  {
    if tag.name.local == "alphaModFix" then ParseInt(GetAtt(tag.attrs, "amt")).err else None
  }

  /** The token loop of ABlip.UnmarshalXML from cursor i: alphaModFix is read in place and
      recorded only when amt parses. */
  function BlipLoop(a: ABlip, toks: seq<Token>, i: nat): (ABlip, Option<Error>)
    requires i <= |toks|
    decreases |toks| - i
  {
    match Pull(toks, i)
    case Eof => (a, None)
    case Fault(e) => (a, Some(e))
    case Got(t) =>
      if IsStartNamed(t, "alphaModFix") then
        var n := ParseInt(GetAtt(t.tag.attrs, "amt"));
        if n.err.Some? then (a, n.err)
        else BlipLoop(a.(alphaModFix := Some(AAlphaModFix(n.value))), toks, i + 1)
      else BlipLoop(a, toks, i + 1)
  }

  function BlipSpec(a0: ABlip, start: Tag, toks: seq<Token>): (ABlip, Option<Error>)
  {
    BlipLoop(BlipAttrs(a0, start.attrs), toks, 0)
  }

  /** ABlip.UnmarshalXML. */
  method DecodeBlip(a0: ABlip, start: Tag, toks: seq<Token>) returns (a: ABlip, err: Option<Error>)
    ensures (a, err) == BlipSpec(a0, start, toks)
  {
    a := a0;
    for k := 0 to |start.attrs|
      invariant BlipAttrs(a, start.attrs[k..]) == BlipAttrs(a0, start.attrs)
    {
      var attr := start.attrs[k];
      assert start.attrs[k..][1..] == start.attrs[k + 1..];
      if attr.name.local == "embed" {
        a := a.(embed := attr.value);
      } else if attr.name.local == "cstate" {
        a := a.(cstate := attr.value);
      }
    }
    var i := 0;
    while true
      invariant i <= |toks|
      invariant BlipLoop(a, toks, i) == BlipSpec(a0, start, toks)
      decreases |toks| - i
    {
      var p := Pull(toks, i);
      if p.Eof? {
        break;
      }
      if p.Fault? {
        return a, Some(p.err);
      }
      i := i + 1;
      var t := p.tok;
      if t.Start? && t.tag.name.local == "alphaModFix" {
        var n := ParseInt(GetAtt(t.tag.attrs, "amt"));
        if n.err.Some? {
          return a, n.err;
        }
        a := a.(alphaModFix := Some(AAlphaModFix(n.value)));
      }
    }
    return a, None;
  }

  lemma {:induction false} BlipAttrsMeaning(a: ABlip, attrs: seq<Attr>)
    ensures BlipAttrs(a, attrs)
            == a.(embed := TextSetting(attrs, "embed", a.embed), cstate := TextSetting(attrs, "cstate", a.cstate))
    decreases |attrs|
  {
    if attrs != [] {
      if attrs[0].name.local == "embed" {
        BlipAttrsMeaning(a.(embed := attrs[0].value), attrs[1..]);
      } else if attrs[0].name.local == "cstate" {
        BlipAttrsMeaning(a.(cstate := attrs[0].value), attrs[1..]);
      } else {
        BlipAttrsMeaning(a, attrs[1..]);
      }
    }
  }

  /** The token loop fails exactly at a tokenizer failure or at the first alphaModFix whose
      amt does not parse, and never touches embed or cstate. AlphaModFix holds the amt of
      the last alphaModFix child read before the loop stops (the failing one is not
      stored), or is unchanged when there is none; on success that is the LAST
      alphaModFix child. */
  lemma {:induction false} BlipChildren(a: ABlip, toks: seq<Token>, i: nat)
    requires i <= |toks|
    ensures BlipLoop(a, toks, i).1 == ScanError(toks, i, NoDelegation, AmtCheck)
    ensures BlipLoop(a, toks, i).0.embed == a.embed && BlipLoop(a, toks, i).0.cstate == a.cstate
    ensures BlipLoop(a, toks, i).1.None? ==>
      BlipLoop(a, toks, i).0.alphaModFix ==
        match LastStart(toks, i, NoDelegation, "alphaModFix")
        case None => a.alphaModFix
        case Some(k) => Some(AAlphaModFix(ParseInt(GetAtt(TagAt(toks, k).attrs, "amt")).value))
    ensures BlipLoop(a, toks, i).0.alphaModFix ==
        match LastPassingStart(toks, i, NoDelegation, "alphaModFix", AmtCheck)
        case None => a.alphaModFix
        case Some(k) => Some(AAlphaModFix(ParseInt(GetAtt(TagAt(toks, k).attrs, "amt")).value))
    decreases |toks| - i
  {
    match Pull(toks, i)
    case Eof =>
    case Fault(_) =>
    case Got(t) =>
      if IsStartNamed(t, "alphaModFix") {
        var n := ParseInt(GetAtt(t.tag.attrs, "amt"));
        if n.err.None? {
          BlipChildren(a.(alphaModFix := Some(AAlphaModFix(n.value))), toks, i + 1);
        }
      } else {
        BlipChildren(a, toks, i + 1);
      }
  }

  /** A whole blip decode: embed and cstate are the last such attributes' values (or
      unchanged) whatever happens in the content, and the decode fails exactly as the
      token loop does. */
  lemma BlipDecode(a0: ABlip, start: Tag, toks: seq<Token>)
    ensures var (a, err) := BlipSpec(a0, start, toks);
      && a.embed == TextSetting(start.attrs, "embed", a0.embed)
      && a.cstate == TextSetting(start.attrs, "cstate", a0.cstate)
      && err == ScanError(toks, 0, NoDelegation, AmtCheck)
  {
    BlipAttrsMeaning(a0, start.attrs);
    BlipChildren(BlipAttrs(a0, start.attrs), toks, 0);
  }

  /** An alphaModFix without amt is an error and leaves AlphaModFix unset. */
  lemma BlipMissingAmount(name: Name)
    ensures var fix := Name("a", "alphaModFix");
      BlipSpec(ZeroBlip, Tag(name, [Attr(Name("r", "embed"), "rId5")]), [Start(Tag(fix, [])), End(fix), End(name)])
      == (ZeroBlip.(embed := "rId5"), Some(SyntaxErr("")))
  {
  }

  /* ================= pic:blipFill ================= */

  /** The image fill. Its a:stretch child carries no data the model keeps. */
  datatype PICBlipFill = PICBlipFill(blip: ABlip)

  const ZeroBlipFill := PICBlipFill(ZeroBlip)

  const BlipFillDelegated: set<string> := {"blip", "stretch"}

  /** The token loop of PICBlipFill.UnmarshalXML from cursor i: a blip child is decoded
      over the current blip (its error dropped); the generic decode of stretch only
      consumes its subtree. */
  function BlipFillLoop(p: PICBlipFill, toks: seq<Token>, i: nat): (PICBlipFill, Option<Error>)
    requires i <= |toks|
    decreases |toks| - i
  {
    match Pull(toks, i)
    case Eof => (p, None)
    case Fault(e) => (p, Some(e))
    case Got(t) =>
      if IsStartNamed(t, "blip") then
        BlipFillLoop(p.(blip := BlipSpec(p.blip, t.tag, Subtree(toks, i + 1)).0), toks, After(toks, i + 1))
      else if IsStartNamed(t, "stretch") then BlipFillLoop(p, toks, After(toks, i + 1))
      else BlipFillLoop(p, toks, i + 1)
  }

  /** PICBlipFill.UnmarshalXML. */
  method DecodeBlipFill(p0: PICBlipFill, start: Tag, toks: seq<Token>) returns (p: PICBlipFill, err: Option<Error>)
    ensures (p, err) == BlipFillLoop(p0, toks, 0)
  {
    p := p0;
    var i := 0;
    while true
      invariant i <= |toks|
      invariant BlipFillLoop(p, toks, i) == BlipFillLoop(p0, toks, 0)
      decreases |toks| - i
    {
      var q := Pull(toks, i);
      if q.Eof? {
        break;
      }
      if q.Fault? {
        return p, Some(q.err);
      }
      i := i + 1;
      var t := q.tok;
      if t.Start? && t.tag.name.local == "blip" {
        var b, _ := DecodeBlip(p.blip, t.tag, Subtree(toks, i));
        p := p.(blip := b);
        i := After(toks, i);
      } else if t.Start? && t.tag.name.local == "stretch" {
        i := After(toks, i);
      }
    }
    return p, None;
  }

  /** The blip after the loop is the decode of the LAST blip child over some incoming value. */
  lemma {:induction false} BlipFillLast(p: PICBlipFill, toks: seq<Token>, i: nat)
    requires i <= |toks|
    ensures var b := BlipFillLoop(p, toks, i).0.blip;
      match LastStart(toks, i, BlipFillDelegated, "blip")
      case None => b == p.blip
      case Some(k) => DecodedFrom(b, BlipSpec, TagAt(toks, k), Subtree(toks, k + 1))
    decreases |toks| - i, 1
  {
    match Pull(toks, i)
    case Eof =>
    case Fault(_) =>
    case Got(t) =>
      if IsStartNamed(t, "blip") {
        BlipFillLastAt(p, toks, i);
      } else if IsStartNamed(t, "stretch") {
        BlipFillLastStretch(p, toks, i);
      } else {
        assert Step(toks, i, BlipFillDelegated) == i + 1;
        assert LastStart(toks, i, BlipFillDelegated, "blip") == LastStart(toks, i + 1, BlipFillDelegated, "blip");
        BlipFillLast(p, toks, i + 1);
      }
  }

  /** BlipFillLast when the token at i is a stretch start tag: the blip is not touched. */
  lemma {:induction false} BlipFillLastStretch(p: PICBlipFill, toks: seq<Token>, i: nat)
    requires i < |toks| && IsStartNamed(toks[i], "stretch")
    ensures var b := BlipFillLoop(p, toks, i).0.blip;
      match LastStart(toks, i, BlipFillDelegated, "blip")
      case None => b == p.blip
      case Some(k) => DecodedFrom(b, BlipSpec, TagAt(toks, k), Subtree(toks, k + 1))
    decreases |toks| - i, 0
  {
    var j := After(toks, i + 1);
    assert Step(toks, i, BlipFillDelegated) == j;
    assert BlipFillLoop(p, toks, i) == BlipFillLoop(p, toks, j);
    assert LastStart(toks, i, BlipFillDelegated, "blip") == LastStart(toks, j, BlipFillDelegated, "blip");
    BlipFillLast(p, toks, j);
  }

  /** BlipFillLast when the token at i is a blip start tag. */
  lemma {:induction false} BlipFillLastAt(p: PICBlipFill, toks: seq<Token>, i: nat)
    requires i < |toks| && IsStartNamed(toks[i], "blip")
    ensures LastStart(toks, i, BlipFillDelegated, "blip").Some?
    ensures DecodedFrom(BlipFillLoop(p, toks, i).0.blip, BlipSpec,
                        TagAt(toks, LastStart(toks, i, BlipFillDelegated, "blip").value),
                        Subtree(toks, LastStart(toks, i, BlipFillDelegated, "blip").value + 1))
    decreases |toks| - i, 0
  {
    var j := After(toks, i + 1);
    var p' := p.(blip := BlipSpec(p.blip, TagAt(toks, i), Subtree(toks, i + 1)).0);
    assert Step(toks, i, BlipFillDelegated) == j;
    assert BlipFillLoop(p, toks, i) == BlipFillLoop(p', toks, j);
    BlipFillLast(p', toks, j);
    if LastStart(toks, j, BlipFillDelegated, "blip").None? {
      assert LastStart(toks, i, BlipFillDelegated, "blip") == Some(i);
      DecodedFromWitness(BlipFillLoop(p, toks, i).0.blip, p.blip, BlipSpec, TagAt(toks, i), Subtree(toks, i + 1));
    } else {
      assert LastStart(toks, i, BlipFillDelegated, "blip") == LastStart(toks, j, BlipFillDelegated, "blip");
    }
  }

  /** Whatever value a blip is decoded over, the embed and cstate attributes its start tag
      carries are the ones it ends with. */
  lemma BlipDecodedKeeps(b: ABlip, tag: Tag, body: seq<Token>)
    requires DecodedFrom(b, BlipSpec, tag, body)
    ensures LastAttr(tag.attrs, "embed").Some? ==> b.embed == LastAttr(tag.attrs, "embed").value
    ensures LastAttr(tag.attrs, "cstate").Some? ==> b.cstate == LastAttr(tag.attrs, "cstate").value
  {
    var decode: Decoder<ABlip> := BlipSpec;
    var v :| b == decode(v, tag, body).0;
    BlipDecode(v, tag, body);
  }

  /** The loop fails only at a tokenizer failure: a blip child's error is dropped. */
  lemma {:induction false} BlipFillErrors(p: PICBlipFill, toks: seq<Token>, i: nat)
    requires i <= |toks|
    ensures BlipFillLoop(p, toks, i).1 == ScanError(toks, i, BlipFillDelegated, NoCheck)
    decreases |toks| - i
  {
    match Pull(toks, i)
    case Eof =>
    case Fault(_) =>
    case Got(t) =>
      var j := After(toks, i + 1);
      if IsStartNamed(t, "blip") {
        BlipFillErrors(p.(blip := BlipSpec(p.blip, t.tag, Subtree(toks, i + 1)).0), toks, j);
      } else if IsStartNamed(t, "stretch") {
        BlipFillErrors(p, toks, j);
      } else {
        BlipFillErrors(p, toks, i + 1);
      }
  }

  /** Each blip child is decoded over the value the earlier ones left, so embed and cstate
      chain across them: they are the last such attributes over all the blip children,
      in document order, or unchanged. */
  lemma {:induction false} BlipFillChain(p: PICBlipFill, toks: seq<Token>, i: nat)
    requires i <= |toks|
    ensures var b := BlipFillLoop(p, toks, i).0.blip;
      var attrs := StartAttrs(toks, i, BlipFillDelegated, "blip", AllAttrs);
      && b.embed == TextSetting(attrs, "embed", p.blip.embed)
      && b.cstate == TextSetting(attrs, "cstate", p.blip.cstate)
    decreases |toks| - i
  {
    match Pull(toks, i)
    case Eof =>
    case Fault(_) =>
    case Got(t) =>
      var j := After(toks, i + 1);
      var rest := StartAttrs(toks, Step(toks, i, BlipFillDelegated), BlipFillDelegated, "blip", AllAttrs);
      if IsStartNamed(t, "blip") {
        var p' := p.(blip := BlipSpec(p.blip, t.tag, Subtree(toks, i + 1)).0);
        BlipDecode(p.blip, t.tag, Subtree(toks, i + 1));
        assert Step(toks, i, BlipFillDelegated) == j;
        BlipFillChain(p', toks, j);
        TextSettingConcat(t.tag.attrs, rest, "embed", p.blip.embed);
        TextSettingConcat(t.tag.attrs, rest, "cstate", p.blip.cstate);
      } else if IsStartNamed(t, "stretch") {
        assert Step(toks, i, BlipFillDelegated) == j;
        assert StartAttrs(toks, i, BlipFillDelegated, "blip", AllAttrs) == rest;
        BlipFillChain(p, toks, j);
      } else {
        assert StartAttrs(toks, i, BlipFillDelegated, "blip", AllAttrs) == rest;
        BlipFillChain(p, toks, i + 1);
      }
  }

  /** The loop fails only at a tokenizer failure. Without a blip child the blip is
      unchanged; otherwise it is what the decode of the LAST blip child yields from some
      incoming value (its error dropped, the partly filled value kept), so that child's
      embed and cstate attributes, when present, are the ones kept, whatever its content
      holds. Embed and cstate chain across all the blip children (BlipFillChain); for
      alphaModFix only the last child's decode is stated. */
  lemma {:induction false} BlipFillChildren(p: PICBlipFill, toks: seq<Token>, i: nat)
    requires i <= |toks|
    ensures BlipFillLoop(p, toks, i).1 == ScanError(toks, i, BlipFillDelegated, NoCheck)
    ensures var b := BlipFillLoop(p, toks, i).0.blip;
      match LastStart(toks, i, BlipFillDelegated, "blip")
      case None => b == p.blip
      case Some(k) =>
        && (LastAttr(TagAt(toks, k).attrs, "embed").Some? ==> b.embed == LastAttr(TagAt(toks, k).attrs, "embed").value)
        && (LastAttr(TagAt(toks, k).attrs, "cstate").Some? ==> b.cstate == LastAttr(TagAt(toks, k).attrs, "cstate").value)
        && DecodedFrom(b, BlipSpec, TagAt(toks, k), Subtree(toks, k + 1))
    ensures var b := BlipFillLoop(p, toks, i).0.blip;
      var attrs := StartAttrs(toks, i, BlipFillDelegated, "blip", AllAttrs);
      b.embed == TextSetting(attrs, "embed", p.blip.embed) && b.cstate == TextSetting(attrs, "cstate", p.blip.cstate)
  {
    BlipFillErrors(p, toks, i);
    BlipFillLast(p, toks, i);
    BlipFillChain(p, toks, i);
    var b := BlipFillLoop(p, toks, i).0.blip;
    match LastStart(toks, i, BlipFillDelegated, "blip")
    case None =>
    case Some(k) => BlipDecodedKeeps(b, TagAt(toks, k), Subtree(toks, k + 1));
  }

  /** Two blip children are decoded one over the other: the first one's embed survives
      the second, which carries only cstate. */
  lemma BlipFillTwoBlips()
    ensures var blip := Name("a", "blip");
      var first := Tag(blip, [Attr(Name("r", "embed"), "rId1")]);
      var second := Tag(blip, [Attr(Name("", "cstate"), "print")]);
      BlipFillLoop(ZeroBlipFill, [Start(first), End(blip), Start(second), End(blip), End(Name("pic", "blipFill"))], 0)
      == (PICBlipFill(ABlip("rId1", "print", None)), None)
  {
    var blip := Name("a", "blip");
    var first := Tag(blip, [Attr(Name("r", "embed"), "rId1")]);
    var second := Tag(blip, [Attr(Name("", "cstate"), "print")]);
    var toks := [Start(first), End(blip), Start(second), End(blip), End(Name("pic", "blipFill"))];
    assert After(toks, 1) == 2;
    assert After(toks, 3) == 4;
    assert Subtree(toks, 1) == [End(blip)];
    assert Subtree(toks, 3) == [End(blip)];
    var one := PICBlipFill(ABlip("rId1", "", None));
    var two := PICBlipFill(ABlip("rId1", "print", None));
    assert first.attrs[1..] == [] && second.attrs[1..] == [];
    assert BlipAttrs(ZeroBlip, first.attrs) == one.blip;
    assert BlipAttrs(one.blip, second.attrs) == two.blip;
    assert BlipLoop(one.blip, [End(blip)], 1) == (one.blip, None);
    assert BlipLoop(two.blip, [End(blip)], 1) == (two.blip, None);
    assert BlipSpec(ZeroBlip, first, [End(blip)]) == (one.blip, None);
    assert BlipSpec(one.blip, second, [End(blip)]) == (two.blip, None);
    assert BlipFillLoop(two, toks, 4) == (two, None);
    assert BlipFillLoop(one, toks, 2) == (two, None);
  }

  /* ================= pic:nvPicPr ================= */

  /** The picture's id and name, kept as text. */
  datatype PICNonVisualDrawingProperties = PICNonVisualDrawingProperties(id: string, name: string)

  datatype PICNonVisualPicProperties = PICNonVisualPicProperties(drawingProperties: PICNonVisualDrawingProperties)

  const ZeroNvPicPr := PICNonVisualPicProperties(PICNonVisualDrawingProperties("", ""))

  /** The token loop of PICNonVisualPicProperties.UnmarshalXML from cursor i: a cNvPr start
      tag sets both id and name from its own attributes ("" when absent). */
  function NvPicPrLoop(p: PICNonVisualPicProperties, toks: seq<Token>, i: nat): (PICNonVisualPicProperties, Option<Error>)
    requires i <= |toks|
    decreases |toks| - i
  {
    match Pull(toks, i)
    case Eof => (p, None)
    case Fault(e) => (p, Some(e))
    case Got(t) =>
      if IsStartNamed(t, "cNvPr") then
        var props := PICNonVisualDrawingProperties(GetAtt(t.tag.attrs, "id"), GetAtt(t.tag.attrs, "name"));
        NvPicPrLoop(p.(drawingProperties := props), toks, i + 1)
      else NvPicPrLoop(p, toks, i + 1)
  }

  /** PICNonVisualPicProperties.UnmarshalXML. */
  method DecodeNvPicPr(p0: PICNonVisualPicProperties, start: Tag, toks: seq<Token>)
    returns (p: PICNonVisualPicProperties, err: Option<Error>)
    ensures (p, err) == NvPicPrLoop(p0, toks, 0)
  {
    p := p0;
    var i := 0;
    while true
      invariant i <= |toks|
      invariant NvPicPrLoop(p, toks, i) == NvPicPrLoop(p0, toks, 0)
      decreases |toks| - i
    {
      var q := Pull(toks, i);
      if q.Eof? {
        break;
      }
      if q.Fault? {
        return p, Some(q.err);
      }
      i := i + 1;
      var t := q.tok;
      if t.Start? && t.tag.name.local == "cNvPr" {
        p := p.(drawingProperties := p.drawingProperties.(id := GetAtt(t.tag.attrs, "id")));
        p := p.(drawingProperties := p.drawingProperties.(name := GetAtt(t.tag.attrs, "name")));
      }
    }
    return p, None;
  }

  /** The loop fails only at a tokenizer failure; id and name come from the LAST cNvPr
      start tag read (both, even when one is absent), or are unchanged without one. */
  lemma {:induction false} NvPicPrChildren(p: PICNonVisualPicProperties, toks: seq<Token>, i: nat)
    requires i <= |toks|
    ensures NvPicPrLoop(p, toks, i).1 == ScanError(toks, i, NoDelegation, NoCheck)
    ensures NvPicPrLoop(p, toks, i).0.drawingProperties ==
      match LastStart(toks, i, NoDelegation, "cNvPr")
      case None => p.drawingProperties
      case Some(k) => PICNonVisualDrawingProperties(GetAtt(TagAt(toks, k).attrs, "id"), GetAtt(TagAt(toks, k).attrs, "name"))
    decreases |toks| - i
  {
    match Pull(toks, i)
    case Eof =>
    case Fault(_) =>
    case Got(t) =>
      if IsStartNamed(t, "cNvPr") {
        var props := PICNonVisualDrawingProperties(GetAtt(t.tag.attrs, "id"), GetAtt(t.tag.attrs, "name"));
        NvPicPrChildren(p.(drawingProperties := props), toks, i + 1);
      } else {
        NvPicPrChildren(p, toks, i + 1);
      }
  }

  /* ================= pic:pic ================= */

  /** A picture. xmlPic is the xmlns:pic declaration, which the enclosing graphicData
      decoder fills in. */
  datatype PICPic = PICPic(xmlPic: string, nvPicPr: Option<PICNonVisualPicProperties>,
                           blipFill: Option<PICBlipFill>, spPr: Option<PICSpPr>)

  const ZeroPic := PICPic("", None, None, None)

  const PicDelegated: set<string> := {"nvPicPr", "blipFill", "spPr"}

  /** The values the children starting at position k yield when decoded from fresh values. */
  function NvPicPrAt(toks: seq<Token>, k: nat): PICNonVisualPicProperties
    requires k < |toks|
  {
    NvPicPrLoop(ZeroNvPicPr, Subtree(toks, k + 1), 0).0
  }

  function BlipFillAt(toks: seq<Token>, k: nat): PICBlipFill
    requires k < |toks|
  {
    BlipFillLoop(ZeroBlipFill, Subtree(toks, k + 1), 0).0
  }

  function SpPrAt(toks: seq<Token>, k: nat, decodeGeom: Decoder<APrstGeom>): PICSpPr
    requires k < |toks|
  {
    SpPrLoop(ZeroSpPr, Subtree(toks, k + 1), 0, decodeGeom).0
  }

  /** The token loop of PICPic.UnmarshalXML from cursor i: each of the three children is
      decoded into a fresh value, which replaces the field whatever the child's error
      (dropped). */
  function PicLoop(p: PICPic, toks: seq<Token>, i: nat, decodeGeom: Decoder<APrstGeom>): (PICPic, Option<Error>)
    requires i <= |toks|
    decreases |toks| - i
  {
    match Pull(toks, i)
    case Eof => (p, None)
    case Fault(e) => (p, Some(e))
    case Got(t) =>
      var j := After(toks, i + 1);
      if IsStartNamed(t, "nvPicPr") then
        PicLoop(p.(nvPicPr := Some(NvPicPrAt(toks, i))), toks, j, decodeGeom)
      else if IsStartNamed(t, "blipFill") then
        PicLoop(p.(blipFill := Some(BlipFillAt(toks, i))), toks, j, decodeGeom)
      else if IsStartNamed(t, "spPr") then
        PicLoop(p.(spPr := Some(SpPrAt(toks, i, decodeGeom))), toks, j, decodeGeom)
      else PicLoop(p, toks, i + 1, decodeGeom)
  }

  /** PICPic.UnmarshalXML. */
  method DecodePic(p0: PICPic, start: Tag, toks: seq<Token>, decodeGeom: Decoder<APrstGeom>)
    returns (p: PICPic, err: Option<Error>)
    ensures (p, err) == PicLoop(p0, toks, 0, decodeGeom)
  {
    p := p0;
    var i := 0;
    while true
      invariant i <= |toks|
      invariant PicLoop(p, toks, i, decodeGeom) == PicLoop(p0, toks, 0, decodeGeom)
      decreases |toks| - i
    {
      var q := Pull(toks, i);
      if q.Eof? {
        break;
      }
      if q.Fault? {
        return p, Some(q.err);
      }
      i := i + 1;
      var t := q.tok;
      if t.Start? && t.tag.name.local == "nvPicPr" {
        var value, _ := DecodeNvPicPr(ZeroNvPicPr, t.tag, Subtree(toks, i));
        p := p.(nvPicPr := Some(value));
        i := After(toks, i);
      } else if t.Start? && t.tag.name.local == "blipFill" {
        var value, _ := DecodeBlipFill(ZeroBlipFill, t.tag, Subtree(toks, i));
        p := p.(blipFill := Some(value));
        i := After(toks, i);
      } else if t.Start? && t.tag.name.local == "spPr" {
        var value, _ := DecodeSpPr(ZeroSpPr, t.tag, Subtree(toks, i), decodeGeom);
        p := p.(spPr := Some(value));
        i := After(toks, i);
      }
    }
    return p, None;
  }

  /** The loop fails only at a tokenizer failure and never changes xmlPic. */
  lemma {:induction false} PicErrors(p: PICPic, toks: seq<Token>, i: nat, decodeGeom: Decoder<APrstGeom>)
    requires i <= |toks|
    ensures PicLoop(p, toks, i, decodeGeom).1 == ScanError(toks, i, PicDelegated, NoCheck)
    ensures PicLoop(p, toks, i, decodeGeom).0.xmlPic == p.xmlPic
    decreases |toks| - i
  {
    match Pull(toks, i)
    case Eof =>
    case Fault(_) =>
    case Got(t) =>
      var j := After(toks, i + 1);
      if IsStartNamed(t, "nvPicPr") {
        PicErrors(p.(nvPicPr := Some(NvPicPrAt(toks, i))), toks, j, decodeGeom);
      } else if IsStartNamed(t, "blipFill") {
        PicErrors(p.(blipFill := Some(BlipFillAt(toks, i))), toks, j, decodeGeom);
      } else if IsStartNamed(t, "spPr") {
        PicErrors(p.(spPr := Some(SpPrAt(toks, i, decodeGeom))), toks, j, decodeGeom);
      } else {
        PicErrors(p, toks, i + 1, decodeGeom);
      }
  }

  /** NonVisualPicProperties holds the decode of the LAST nvPicPr child from a fresh
      value, or is unchanged without one. */
  lemma {:induction false} PicNvPicPr(p: PICPic, toks: seq<Token>, i: nat, decodeGeom: Decoder<APrstGeom>)
    requires i <= |toks|
    ensures PicLoop(p, toks, i, decodeGeom).0.nvPicPr ==
      match LastStart(toks, i, PicDelegated, "nvPicPr")
      case None => p.nvPicPr
      case Some(k) => Some(NvPicPrAt(toks, k))
    decreases |toks| - i
  {
    match Pull(toks, i)
    case Eof =>
    case Fault(_) =>
    case Got(t) =>
      var j := After(toks, i + 1);
      if IsStartNamed(t, "nvPicPr") {
        PicNvPicPr(p.(nvPicPr := Some(NvPicPrAt(toks, i))), toks, j, decodeGeom);
      } else if IsStartNamed(t, "blipFill") {
        PicNvPicPr(p.(blipFill := Some(BlipFillAt(toks, i))), toks, j, decodeGeom);
      } else if IsStartNamed(t, "spPr") {
        PicNvPicPr(p.(spPr := Some(SpPrAt(toks, i, decodeGeom))), toks, j, decodeGeom);
      } else {
        PicNvPicPr(p, toks, i + 1, decodeGeom);
      }
  }

  /** BlipFill holds the decode of the LAST blipFill child from a fresh value, or is
      unchanged without one. */
  lemma {:induction false} PicBlipFill(p: PICPic, toks: seq<Token>, i: nat, decodeGeom: Decoder<APrstGeom>)
    requires i <= |toks|
    ensures PicLoop(p, toks, i, decodeGeom).0.blipFill ==
      match LastStart(toks, i, PicDelegated, "blipFill")
      case None => p.blipFill
      case Some(k) => Some(BlipFillAt(toks, k))
    decreases |toks| - i
  {
    match Pull(toks, i)
    case Eof =>
    case Fault(_) =>
    case Got(t) =>
      var j := After(toks, i + 1);
      if IsStartNamed(t, "nvPicPr") {
        PicBlipFill(p.(nvPicPr := Some(NvPicPrAt(toks, i))), toks, j, decodeGeom);
      } else if IsStartNamed(t, "blipFill") {
        PicBlipFill(p.(blipFill := Some(BlipFillAt(toks, i))), toks, j, decodeGeom);
      } else if IsStartNamed(t, "spPr") {
        PicBlipFill(p.(spPr := Some(SpPrAt(toks, i, decodeGeom))), toks, j, decodeGeom);
      } else {
        PicBlipFill(p, toks, i + 1, decodeGeom);
      }
  }

  /** SpPr holds the decode of the LAST spPr child from a fresh value, or is unchanged
      without one. */
  lemma {:induction false} PicSpPr(p: PICPic, toks: seq<Token>, i: nat, decodeGeom: Decoder<APrstGeom>)
    requires i <= |toks|
    ensures PicLoop(p, toks, i, decodeGeom).0.spPr ==
      match LastStart(toks, i, PicDelegated, "spPr")
      case None => p.spPr
      case Some(k) => Some(SpPrAt(toks, k, decodeGeom))
    decreases |toks| - i
  {
    match Pull(toks, i)
    case Eof =>
    case Fault(_) =>
    case Got(t) =>
      var j := After(toks, i + 1);
      if IsStartNamed(t, "nvPicPr") {
        PicSpPr(p.(nvPicPr := Some(NvPicPrAt(toks, i))), toks, j, decodeGeom);
      } else if IsStartNamed(t, "blipFill") {
        PicSpPr(p.(blipFill := Some(BlipFillAt(toks, i))), toks, j, decodeGeom);
      } else if IsStartNamed(t, "spPr") {
        PicSpPr(p.(spPr := Some(SpPrAt(toks, i, decodeGeom))), toks, j, decodeGeom);
      } else {
        PicSpPr(p, toks, i + 1, decodeGeom);
      }
  }

  /* ================= a:graphicData ================= */

  /** uri names the kind of graphic; the enclosing graphic decoder fills it in. */
  datatype AGraphicData = AGraphicData(uri: string, pic: Option<PICPic>)

  const ZeroGraphicData := AGraphicData("", None)

  const GraphicDataDelegated: set<string> := {"pic"}

  /** The picture a pic start tag at position k yields: decoded from a fresh value, then
      xmlPic set from the tag's own pic attribute. */
  function PicAt(toks: seq<Token>, k: nat, decodeGeom: Decoder<APrstGeom>): PICPic
    requires k < |toks| && toks[k].Start?
  {
    PicLoop(ZeroPic, Subtree(toks, k + 1), 0, decodeGeom).0.(xmlPic := GetAtt(toks[k].tag.attrs, "pic"))
  }

  /** The token loop of AGraphicData.UnmarshalXML from cursor i. */
  function GraphicDataLoop(a: AGraphicData, toks: seq<Token>, i: nat, decodeGeom: Decoder<APrstGeom>)
    : (AGraphicData, Option<Error>)
    requires i <= |toks|
    decreases |toks| - i
  {
    match Pull(toks, i)
    case Eof => (a, None)
    case Fault(e) => (a, Some(e))
    case Got(t) =>
      if IsStartNamed(t, "pic") then
        GraphicDataLoop(a.(pic := Some(PicAt(toks, i, decodeGeom))), toks, After(toks, i + 1), decodeGeom)
      else GraphicDataLoop(a, toks, i + 1, decodeGeom)
  }

  /** AGraphicData.UnmarshalXML. */
  method DecodeGraphicData(a0: AGraphicData, start: Tag, toks: seq<Token>, decodeGeom: Decoder<APrstGeom>)
    returns (a: AGraphicData, err: Option<Error>)
    ensures (a, err) == GraphicDataLoop(a0, toks, 0, decodeGeom)
  {
    a := a0;
    var i := 0;
    while true
      invariant i <= |toks|
      invariant GraphicDataLoop(a, toks, i, decodeGeom) == GraphicDataLoop(a0, toks, 0, decodeGeom)
      decreases |toks| - i
    {
      var q := Pull(toks, i);
      if q.Eof? {
        break;
      }
      if q.Fault? {
        return a, Some(q.err);
      }
      i := i + 1;
      var t := q.tok;
      if t.Start? && t.tag.name.local == "pic" {
        var value, _ := DecodePic(ZeroPic, t.tag, Subtree(toks, i), decodeGeom);
        value := value.(xmlPic := GetAtt(t.tag.attrs, "pic"));
        a := a.(pic := Some(value));
        i := After(toks, i);
      }
    }
    return a, None;
  }

  /** The loop fails only at a tokenizer failure and never changes uri; Pic is the LAST pic
      child, decoded from a fresh value, with xmlPic taken from that child's pic attribute
      (whatever the picture decode did), or unchanged without one. */
  lemma {:induction false} GraphicDataChildren(a: AGraphicData, toks: seq<Token>, i: nat, decodeGeom: Decoder<APrstGeom>)
    requires i <= |toks|
    ensures GraphicDataLoop(a, toks, i, decodeGeom).1 == ScanError(toks, i, GraphicDataDelegated, NoCheck)
    ensures var b := GraphicDataLoop(a, toks, i, decodeGeom).0;
      && b.uri == a.uri
      && b.pic == (match LastStart(toks, i, GraphicDataDelegated, "pic")
                   case None => a.pic
                   case Some(k) => Some(PicAt(toks, k, decodeGeom)))
      && (LastStart(toks, i, GraphicDataDelegated, "pic").Some? ==>
            b.pic.value.xmlPic == GetAtt(TagAt(toks, LastStart(toks, i, GraphicDataDelegated, "pic").value).attrs, "pic"))
    decreases |toks| - i
  {
    match Pull(toks, i)
    case Eof =>
    case Fault(_) =>
    case Got(t) =>
      if IsStartNamed(t, "pic") {
        GraphicDataChildren(a.(pic := Some(PicAt(toks, i, decodeGeom))), toks, After(toks, i + 1), decodeGeom);
      } else {
        GraphicDataChildren(a, toks, i + 1, decodeGeom);
      }
  }

  /* ================= a:graphic ================= */

  /** xmlA is the xmlns:a declaration. */
  datatype AGraphic = AGraphic(xmlA: string, graphicData: Option<AGraphicData>)

  const ZeroGraphic := AGraphic("", None)

  const GraphicDelegated: set<string> := {"graphicData"}

  /** The attribute loop of AGraphic.UnmarshalXML: an attribute with local name "a" (the
      xmlns:a declaration) is copied verbatim. */
  function GraphicAttrs(a: AGraphic, attrs: seq<Attr>): AGraphic
    decreases |attrs|
  {
    if attrs == [] then a
    else if attrs[0].name.local == "a" then GraphicAttrs(a.(xmlA := attrs[0].value), attrs[1..])
    else GraphicAttrs(a, attrs[1..])
  }

  /** The graphic data a graphicData start tag at position k yields: decoded from a fresh
      value, then uri set from the tag's own uri attribute. */
  function GraphicDataAt(toks: seq<Token>, k: nat, decodeGeom: Decoder<APrstGeom>): AGraphicData
    requires k < |toks| && toks[k].Start?
  {
    GraphicDataLoop(ZeroGraphicData, Subtree(toks, k + 1), 0, decodeGeom).0.(uri := GetAtt(toks[k].tag.attrs, "uri"))
  }

  /** The token loop of AGraphic.UnmarshalXML from cursor i. */
  function GraphicLoop(a: AGraphic, toks: seq<Token>, i: nat, decodeGeom: Decoder<APrstGeom>): (AGraphic, Option<Error>)
    requires i <= |toks|
    decreases |toks| - i
  {
    match Pull(toks, i)
    case Eof => (a, None)
    case Fault(e) => (a, Some(e))
    case Got(t) =>
      if IsStartNamed(t, "graphicData") then
        GraphicLoop(a.(graphicData := Some(GraphicDataAt(toks, i, decodeGeom))), toks, After(toks, i + 1), decodeGeom)
      else GraphicLoop(a, toks, i + 1, decodeGeom)
  }

  function GraphicSpec(a0: AGraphic, start: Tag, toks: seq<Token>, decodeGeom: Decoder<APrstGeom>): (AGraphic, Option<Error>)
  {
    GraphicLoop(GraphicAttrs(a0, start.attrs), toks, 0, decodeGeom)
  }

  /** AGraphic.UnmarshalXML. */
  method DecodeGraphic(a0: AGraphic, start: Tag, toks: seq<Token>, decodeGeom: Decoder<APrstGeom>)
    returns (a: AGraphic, err: Option<Error>)
    ensures (a, err) == GraphicSpec(a0, start, toks, decodeGeom)
  {
    a := a0;
    for k := 0 to |start.attrs|
      invariant GraphicAttrs(a, start.attrs[k..]) == GraphicAttrs(a0, start.attrs)
    {
      assert start.attrs[k..][1..] == start.attrs[k + 1..];
      if start.attrs[k].name.local == "a" {
        a := a.(xmlA := start.attrs[k].value);
      }
    }
    var i := 0;
    while true
      invariant i <= |toks|
      invariant GraphicLoop(a, toks, i, decodeGeom) == GraphicSpec(a0, start, toks, decodeGeom)
      decreases |toks| - i
    {
      var q := Pull(toks, i);
      if q.Eof? {
        break;
      }
      if q.Fault? {
        return a, Some(q.err);
      }
      i := i + 1;
      var t := q.tok;
      if t.Start? && t.tag.name.local == "graphicData" {
        var value, _ := DecodeGraphicData(ZeroGraphicData, t.tag, Subtree(toks, i), decodeGeom);
        value := value.(uri := GetAtt(t.tag.attrs, "uri"));
        a := a.(graphicData := Some(value));
        i := After(toks, i);
      }
    }
    return a, None;
  }

  lemma {:induction false} GraphicAttrsMeaning(a: AGraphic, attrs: seq<Attr>)
    ensures GraphicAttrs(a, attrs) == a.(xmlA := TextSetting(attrs, "a", a.xmlA))
    decreases |attrs|
  {
    if attrs != [] {
      if attrs[0].name.local == "a" {
        GraphicAttrsMeaning(a.(xmlA := attrs[0].value), attrs[1..]);
      } else {
        GraphicAttrsMeaning(a, attrs[1..]);
      }
    }
  }

  /** The loop fails only at a tokenizer failure and never changes xmlA; GraphicData is the
      LAST graphicData child, decoded from a fresh value, with uri taken from that child's
      uri attribute, or unchanged without one. */
  lemma {:induction false} GraphicChildren(a: AGraphic, toks: seq<Token>, i: nat, decodeGeom: Decoder<APrstGeom>)
    requires i <= |toks|
    ensures GraphicLoop(a, toks, i, decodeGeom).1 == ScanError(toks, i, GraphicDelegated, NoCheck)
    ensures var b := GraphicLoop(a, toks, i, decodeGeom).0;
      && b.xmlA == a.xmlA
      && b.graphicData == (match LastStart(toks, i, GraphicDelegated, "graphicData")
                           case None => a.graphicData
                           case Some(k) => Some(GraphicDataAt(toks, k, decodeGeom)))
    decreases |toks| - i
  {
    match Pull(toks, i)
    case Eof =>
    case Fault(_) =>
    case Got(t) =>
      if IsStartNamed(t, "graphicData") {
        GraphicChildren(a.(graphicData := Some(GraphicDataAt(toks, i, decodeGeom))), toks, After(toks, i + 1), decodeGeom);
      } else {
        GraphicChildren(a, toks, i + 1, decodeGeom);
      }
  }

  /** A whole graphic decode: xmlA is the last "a" attribute's value (or unchanged), the
      only error is a tokenizer failure, and the uri of the graphic data is the attribute
      of its own start tag. */
  lemma GraphicDecode(a0: AGraphic, start: Tag, toks: seq<Token>, decodeGeom: Decoder<APrstGeom>)
    ensures var (a, err) := GraphicSpec(a0, start, toks, decodeGeom);
      && a.xmlA == TextSetting(start.attrs, "a", a0.xmlA)
      && err == ScanError(toks, 0, GraphicDelegated, NoCheck)
      && (match LastStart(toks, 0, GraphicDelegated, "graphicData")
          case None => a.graphicData == a0.graphicData
          case Some(k) => a.graphicData.Some? && a.graphicData.value.uri == GetAtt(TagAt(toks, k).attrs, "uri"))
  {
    GraphicAttrsMeaning(a0, start.attrs);
    GraphicChildren(GraphicAttrs(a0, start.attrs), toks, 0, decodeGeom);
  }
}
