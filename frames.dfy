/** The drawing frames of WordprocessingML (ECMA-376 Part 1, section 20.4.2): w:drawing
    holds a wp:inline frame (in the text flow) and / or a wp:anchor frame (floating),
    each with its extent, effect extent, docPr, graphic frame properties and graphic. */
module Frames {
  import opened Xml
  import opened Strconv
  import opened FrameParts
  import opened Shape
  import opened Picture

  /* ================= children the frames read in place ================= */

  /** An extent read in place by the inline decoder from a fresh record: cx then cy, each
      stored before it is checked, read with getAtt (so "" when absent, an error). */
  function InPlaceExtent(tag: Tag): (WPExtent, Option<Error>)
  {
    var cx := ParseInt(GetAtt(tag.attrs, "cx"));
    if cx.err.Some? then (ZeroExtent.(cx := cx.value), cx.err)
    else
      var cy := ParseInt(GetAtt(tag.attrs, "cy"));
      (WPExtent(cx.value, cy.value), cy.err)
  }

  /** An effect extent read in place by the inline decoder: l, t, r, b in that order. */
  function InPlaceEffectExtent(tag: Tag): (WPEffectExtent, Option<Error>)
  {
    var l := ParseInt(GetAtt(tag.attrs, "l"));
    var t := ParseInt(GetAtt(tag.attrs, "t"));
    var r := ParseInt(GetAtt(tag.attrs, "r"));
    var b := ParseInt(GetAtt(tag.attrs, "b"));
    if l.err.Some? then (ZeroEffectExtent.(l := l.value), l.err)
    else if t.err.Some? then (ZeroEffectExtent.(l := l.value, t := t.value), t.err)
    else if r.err.Some? then (ZeroEffectExtent.(l := l.value, t := t.value, r := r.value), r.err)
    else (WPEffectExtent(l.value, t.value, r.value, b.value), b.err)
  }

  /** A simplePos child read in place by the anchor decoder: x then y. */
  function InPlaceSimplePos(tag: Tag): (WPSimplePos, Option<Error>)
  {
    var x := ParseInt(GetAtt(tag.attrs, "x"));
    if x.err.Some? then (WPSimplePos(x.value, 0), x.err)
    else
      var y := ParseInt(GetAtt(tag.attrs, "y"));
      (WPSimplePos(x.value, y.value), y.err)
  }

  /* ================= children the frames delegate, each decoded from a fresh value ================= */

  function DocPrAt(toks: seq<Token>, k: nat): WPDocPr
    requires k < |toks| && toks[k].Start?
  {
    DocPrSpec(ZeroDocPr, toks[k].tag, Subtree(toks, k + 1)).0
  }

  function FramePrAt(toks: seq<Token>, k: nat): WPCNvGraphicFramePr
    requires k < |toks|
  {
    FramePrLoop(ZeroCNvGraphicFramePr, Subtree(toks, k + 1), 0).0
  }

  function GraphicAt(toks: seq<Token>, k: nat, decodeGeom: Decoder<APrstGeom>): AGraphic
    requires k < |toks| && toks[k].Start?
  {
    GraphicSpec(ZeroGraphic, toks[k].tag, Subtree(toks, k + 1), decodeGeom).0
  }

  function PositionAt(toks: seq<Token>, k: nat, decodeInt: Decoder<int64>): Position
    requires k < |toks| && toks[k].Start?
  {
    PositionSpec(ZeroPosition, toks[k].tag, Subtree(toks, k + 1), decodeInt).0
  }

  function ExtentAt(toks: seq<Token>, k: nat): WPExtent
    requires k < |toks| && toks[k].Start?
  {
    ExtentSpec(ZeroExtent, toks[k].tag, Subtree(toks, k + 1)).0
  }

  function EffectExtentAt(toks: seq<Token>, k: nat): WPEffectExtent
    requires k < |toks| && toks[k].Start?
  {
    EffectExtentSpec(ZeroEffectExtent, toks[k].tag, Subtree(toks, k + 1)).0
  }

  /* ================= wp:inline ================= */

  /** An inline frame: distances from the text (EMU) and its optional children. */
  datatype WPInline = WPInline(distT: int64, distB: int64, distL: int64, distR: int64,
                               extent: Option<WPExtent>, effectExtent: Option<WPEffectExtent>,
                               docPr: Option<WPDocPr>, cNvGraphicFramePr: Option<WPCNvGraphicFramePr>,
                               graphic: Option<AGraphic>)

  const ZeroInline := WPInline(0, 0, 0, 0, None, None, None, None, None)

  const Distances: set<string> := {"distT", "distB", "distL", "distR"}

  /** The attribute loop of WPInline.UnmarshalXML: each distance is parsed and stored (also
      when malformed); the first malformed one ends the decode. */
  function InlineAttrs(r: WPInline, attrs: seq<Attr>): (WPInline, Option<Error>)
    decreases |attrs|
  {
    if attrs == [] then (r, None)
    else
      var n := ParseInt(attrs[0].value);
      var local := attrs[0].name.local;
      if local == "distT" then
        if n.err.Some? then (r.(distT := n.value), n.err) else InlineAttrs(r.(distT := n.value), attrs[1..])
      else if local == "distB" then
        if n.err.Some? then (r.(distB := n.value), n.err) else InlineAttrs(r.(distB := n.value), attrs[1..])
      else if local == "distL" then
        if n.err.Some? then (r.(distL := n.value), n.err) else InlineAttrs(r.(distL := n.value), attrs[1..])
      else if local == "distR" then
        if n.err.Some? then (r.(distR := n.value), n.err) else InlineAttrs(r.(distR := n.value), attrs[1..])
      else InlineAttrs(r, attrs[1..])
  }

  const InlineDelegated: set<string> := {"docPr", "cNvGraphicFramePr", "graphic"}

  /** The error an in-place child makes the inline loop return. */
  function InlineCheck(tag: Tag): Option<Error>
  {
    if tag.name.local == "extent" then InPlaceExtent(tag).1
    else if tag.name.local == "effectExtent" then InPlaceEffectExtent(tag).1
    else None
  }

  /** The inline after the loop has handled the start tag at position k: extent and
      effectExtent are read in place (the record is stored even when a value then fails
      to parse); docPr, cNvGraphicFramePr and graphic are decoded from a fresh value
      with their errors dropped; any other start tag changes nothing. */
  function InlineStep(r: WPInline, toks: seq<Token>, k: nat, decodeGeom: Decoder<APrstGeom>): WPInline
    requires k < |toks| && toks[k].Start?
  {
    var local := toks[k].tag.name.local;
    if local == "extent" then r.(extent := Some(InPlaceExtent(toks[k].tag).0))
    else if local == "effectExtent" then r.(effectExtent := Some(InPlaceEffectExtent(toks[k].tag).0))
    else if local == "docPr" then r.(docPr := Some(DocPrAt(toks, k)))
    else if local == "cNvGraphicFramePr" then r.(cNvGraphicFramePr := Some(FramePrAt(toks, k)))
    else if local == "graphic" then r.(graphic := Some(GraphicAt(toks, k, decodeGeom)))
    else r
  }

  /** The token loop of WPInline.UnmarshalXML from cursor i: an in-place child that fails
      ends the decode with its error (InlineCheck); delegated children are skipped past
      their subtree; other tokens are passed over one at a time. */
  function InlineLoop(r: WPInline, toks: seq<Token>, i: nat, decodeGeom: Decoder<APrstGeom>): (WPInline, Option<Error>)
    requires i <= |toks|
    decreases |toks| - i
  {
    match Pull(toks, i)
    case Eof => (r, None)
    case Fault(e) => (r, Some(e))
    case Got(t) =>
      if !t.Start? then InlineLoop(r, toks, i + 1, decodeGeom)
      else
        var q := InlineStep(r, toks, i, decodeGeom);
        if InlineCheck(t.tag).Some? then (q, InlineCheck(t.tag))
        else InlineLoop(q, toks, Step(toks, i, InlineDelegated), decodeGeom)
  }

  function InlineSpec(r0: WPInline, start: Tag, toks: seq<Token>, decodeGeom: Decoder<APrstGeom>): (WPInline, Option<Error>)
  {
    var (r, err) := InlineAttrs(r0, start.attrs);
    if err.Some? then (r, err) else InlineLoop(r, toks, 0, decodeGeom)
  }

  /** The in-place read of an extent: a fresh record, cx then cy, each stored before it is
      checked. */
  method ReadExtent(tag: Tag) returns (value: WPExtent, err: Option<Error>)
    ensures (value, err) == InPlaceExtent(tag)
  {
    value := ZeroExtent;
    var cx := ParseInt(GetAtt(tag.attrs, "cx"));
    value := value.(cx := cx.value);
    if cx.err.Some? {
      return value, cx.err;
    }
    var cy := ParseInt(GetAtt(tag.attrs, "cy"));
    value := value.(cy := cy.value);
    return value, cy.err;
  }

  /** The in-place read of an effect extent: a fresh record, l, t, r, b in turn, each
      stored before it is checked. */
  method ReadEffectExtent(tag: Tag) returns (value: WPEffectExtent, err: Option<Error>)
    ensures (value, err) == InPlaceEffectExtent(tag)
  {
    value := ZeroEffectExtent;
    var n := ParseInt(GetAtt(tag.attrs, "l"));
    value := value.(l := n.value);
    if n.err.Some? {
      return value, n.err;
    }
    n := ParseInt(GetAtt(tag.attrs, "t"));
    value := value.(t := n.value);
    if n.err.Some? {
      return value, n.err;
    }
    n := ParseInt(GetAtt(tag.attrs, "r"));
    value := value.(r := n.value);
    if n.err.Some? {
      return value, n.err;
    }
    n := ParseInt(GetAtt(tag.attrs, "b"));
    value := value.(b := n.value);
    return value, n.err;
  }

  /** The attribute loop of WPInline.UnmarshalXML. */
  method DecodeInlineAttrs(r0: WPInline, attrs: seq<Attr>) returns (r: WPInline, err: Option<Error>)
    ensures (r, err) == InlineAttrs(r0, attrs)
  {
    r := r0;
    for k := 0 to |attrs|
      invariant InlineAttrs(r, attrs[k..]) == InlineAttrs(r0, attrs)
    {
      var attr := attrs[k];
      assert attrs[k..][1..] == attrs[k + 1..];
      if attr.name.local == "distT" {
        var n := ParseInt(attr.value);
        r := r.(distT := n.value);
        if n.err.Some? {
          return r, n.err;
        }
      } else if attr.name.local == "distB" {
        var n := ParseInt(attr.value);
        r := r.(distB := n.value);
        if n.err.Some? {
          return r, n.err;
        }
      } else if attr.name.local == "distL" {
        var n := ParseInt(attr.value);
        r := r.(distL := n.value);
        if n.err.Some? {
          return r, n.err;
        }
      } else if attr.name.local == "distR" {
        var n := ParseInt(attr.value);
        r := r.(distR := n.value);
        if n.err.Some? {
          return r, n.err;
        }
      }
    }
    return r, None;
  }

  /** The loop body of WPInline.UnmarshalXML for the start tag at position i: the record it
      leaves and the error it returns. */
  method DecodeInlineChild(r: WPInline, toks: seq<Token>, i: nat, decodeGeom: Decoder<APrstGeom>)
    returns (q: WPInline, err: Option<Error>)
    requires i < |toks| && toks[i].Start?
    ensures q == InlineStep(r, toks, i, decodeGeom) && err == InlineCheck(toks[i].tag)
  {
    q := r;
    var t := toks[i];
    var local := t.tag.name.local;
    if local == "extent" {
      var value, e := ReadExtent(t.tag);
      q := q.(extent := Some(value));
      if e.Some? {
        return q, e;
      }
    } else if local == "effectExtent" {
      var value, e := ReadEffectExtent(t.tag);
      q := q.(effectExtent := Some(value));
      if e.Some? {
        return q, e;
      }
    } else if local == "docPr" {
      var value, _ := DecodeDocPr(ZeroDocPr, t.tag, Subtree(toks, i + 1));
      q := q.(docPr := Some(value));
    } else if local == "cNvGraphicFramePr" {
      var value, _ := DecodeCNvGraphicFramePr(ZeroCNvGraphicFramePr, t.tag, Subtree(toks, i + 1));
      q := q.(cNvGraphicFramePr := Some(value));
    } else if local == "graphic" {
      var value, _ := DecodeGraphic(ZeroGraphic, t.tag, Subtree(toks, i + 1), decodeGeom);
      q := q.(graphic := Some(value));
    }
    return q, None;
  }

  /** The token loop of WPInline.UnmarshalXML, run from the record the attribute loop produced. */
  method DecodeInlineChildren(r0: WPInline, toks: seq<Token>, decodeGeom: Decoder<APrstGeom>)
    returns (r: WPInline, err: Option<Error>)
    ensures (r, err) == InlineLoop(r0, toks, 0, decodeGeom)
  {
    r := r0;
    var i := 0;
    while true
      invariant i <= |toks|
      invariant InlineLoop(r, toks, i, decodeGeom) == InlineLoop(r0, toks, 0, decodeGeom)
      decreases |toks| - i
    {
      var q := Pull(toks, i);
      if q.Eof? {
        break;
      }
      if q.Fault? {
        return r, Some(q.err);
      }
      var t := q.tok;
      if !t.Start? {
        i := i + 1;
        continue;
      }
      var r', e := DecodeInlineChild(r, toks, i, decodeGeom);
      if e.Some? {
        return r', e;
      }
      r, i := r', Step(toks, i, InlineDelegated);
    }
    return r, None;
  }

  /** WPInline.UnmarshalXML: the attribute loop, then the token loop. */
  method DecodeInline(r0: WPInline, start: Tag, toks: seq<Token>, decodeGeom: Decoder<APrstGeom>)
    returns (r: WPInline, err: Option<Error>)
    ensures (r, err) == InlineSpec(r0, start, toks, decodeGeom)
  {
    r, err := DecodeInlineAttrs(r0, start.attrs);
    if err.Some? {
      return r, err;
    }
    r, err := DecodeInlineChildren(r, toks, decodeGeom);
  }


  lemma {:induction false} InlineAttrsError(r: WPInline, attrs: seq<Attr>)
    ensures InlineAttrs(r, attrs).1 == FirstMalformed(attrs, Distances)
    decreases |attrs|
  {
    if attrs != [] {
      var n := ParseInt(attrs[0].value);
      var local := attrs[0].name.local;
      if local == "distT" {
        InlineAttrsError(r.(distT := n.value), attrs[1..]);
      } else if local == "distB" {
        InlineAttrsError(r.(distB := n.value), attrs[1..]);
      } else if local == "distL" {
        InlineAttrsError(r.(distL := n.value), attrs[1..]);
      } else if local == "distR" {
        InlineAttrsError(r.(distR := n.value), attrs[1..]);
      } else {
        InlineAttrsError(r, attrs[1..]);
      }
    }
  }

  /** Each distance holds the last value given for it among the attributes handled (the
      malformed one that ends the loop included, as it is stored before it is checked),
      or is unchanged; on success that is every attribute. Nothing else changes. */
  lemma {:induction false} InlineAttrsMeaning(r: WPInline, attrs: seq<Attr>)
    ensures var stored := StoredAttrs(attrs, Distances);
      InlineAttrs(r, attrs).0 == r.(distT := Setting(stored, "distT", r.distT), distB := Setting(stored, "distB", r.distB),
                                    distL := Setting(stored, "distL", r.distL), distR := Setting(stored, "distR", r.distR))
    ensures InlineAttrs(r, attrs).1.None? ==>
              InlineAttrs(r, attrs).0 == r.(distT := Setting(attrs, "distT", r.distT), distB := Setting(attrs, "distB", r.distB),
                                            distL := Setting(attrs, "distL", r.distL), distR := Setting(attrs, "distR", r.distR))
    decreases |attrs|
  {
    if attrs != [] {
      var n := ParseInt(attrs[0].value);
      var local := attrs[0].name.local;
      HandledAttrsCons(attrs, Distances);
      var rest := StoredAttrs(attrs[1..], Distances);
      SettingPrepend(attrs[0], rest, "distT", r.distT);
      SettingPrepend(attrs[0], rest, "distB", r.distB);
      SettingPrepend(attrs[0], rest, "distL", r.distL);
      SettingPrepend(attrs[0], rest, "distR", r.distR);
      SettingOne(attrs[0], "distT", r.distT);
      SettingOne(attrs[0], "distB", r.distB);
      SettingOne(attrs[0], "distL", r.distL);
      SettingOne(attrs[0], "distR", r.distR);
      if local !in Distances {
        assert InlineAttrs(r, attrs) == InlineAttrs(r, attrs[1..]);
        InlineAttrsMeaning(r, attrs[1..]);
      } else {
        var r' := if local == "distT" then r.(distT := n.value)
                  else if local == "distB" then r.(distB := n.value)
                  else if local == "distL" then r.(distL := n.value)
                  else r.(distR := n.value);
        if n.err.Some? {
          assert StoredAttrs(attrs, Distances) == [attrs[0]];
          assert InlineAttrs(r, attrs).0 == r';
        } else {
          assert StoredAttrs(attrs, Distances) == [attrs[0]] + rest;
          assert InlineAttrs(r, attrs) == InlineAttrs(r', attrs[1..]);
          InlineAttrsMeaning(r', attrs[1..]);
        }
      }
    }
    InlineAttrsError(r, attrs);
    MalformedIndexAll(attrs, Distances);
  }

  /** The inline loop fails exactly at a tokenizer failure or at the first extent /
      effectExtent with an attribute that does not parse (absent included), returning
      that error; delegated children never make it fail. It never changes the distances,
      which only the attributes set. */
  lemma {:induction false} InlineErrors(r: WPInline, toks: seq<Token>, i: nat, decodeGeom: Decoder<APrstGeom>)
    requires i <= |toks|
    ensures InlineLoop(r, toks, i, decodeGeom).1 == ScanError(toks, i, InlineDelegated, InlineCheck)
    ensures var q := InlineLoop(r, toks, i, decodeGeom).0;
      q.distT == r.distT && q.distB == r.distB && q.distL == r.distL && q.distR == r.distR
    decreases |toks| - i
  {
    match Pull(toks, i)
    case Eof =>
    case Fault(_) =>
    case Got(t) =>
      if !t.Start? {
        InlineErrors(r, toks, i + 1, decodeGeom);
      } else if InlineCheck(t.tag).None? {
        var q := InlineStep(r, toks, i, decodeGeom);
        InlineErrors(q, toks, Step(toks, i, InlineDelegated), decodeGeom);
      }
  }

  /** On success the extent and the effect extent hold the LAST child of their kind read
      in place, or are unchanged without one. */
  lemma {:induction false} InlineInPlace(r: WPInline, toks: seq<Token>, i: nat, decodeGeom: Decoder<APrstGeom>)
    requires i <= |toks|
    ensures var (q, err) := InlineLoop(r, toks, i, decodeGeom);
      err.None? ==>
      && q.extent == (match LastStart(toks, i, InlineDelegated, "extent")
                  case None => r.extent
                  case Some(k) => Some(InPlaceExtent(TagAt(toks, k)).0))
      && q.effectExtent == (match LastStart(toks, i, InlineDelegated, "effectExtent")
                  case None => r.effectExtent
                  case Some(k) => Some(InPlaceEffectExtent(TagAt(toks, k)).0))
    decreases |toks| - i
  {
    match Pull(toks, i)
    case Eof =>
    case Fault(_) =>
    case Got(t) =>
      if !t.Start? {
        InlineInPlace(r, toks, i + 1, decodeGeom);
      } else if InlineCheck(t.tag).None? {
        var q := InlineStep(r, toks, i, decodeGeom);
        var local := t.tag.name.local;
        assert q.extent == if local == "extent" then Some(InPlaceExtent(t.tag).0) else r.extent;
        assert q.effectExtent == if local == "effectExtent" then Some(InPlaceEffectExtent(t.tag).0) else r.effectExtent;
        InlineInPlace(q, toks, Step(toks, i, InlineDelegated), decodeGeom);
      }
  }

  /** On success docPr, cNvGraphicFramePr and graphic each hold the LAST child of their
      kind decoded from a fresh value (whatever that child's own error), or are unchanged
      without one. */
  lemma {:induction false} InlineDelegates(r: WPInline, toks: seq<Token>, i: nat, decodeGeom: Decoder<APrstGeom>)
    requires i <= |toks|
    ensures var (q, err) := InlineLoop(r, toks, i, decodeGeom);
      err.None? ==>
      && q.docPr == (match LastStart(toks, i, InlineDelegated, "docPr")
                  case None => r.docPr
                  case Some(k) => Some(DocPrAt(toks, k)))
      && q.cNvGraphicFramePr == (match LastStart(toks, i, InlineDelegated, "cNvGraphicFramePr")
                  case None => r.cNvGraphicFramePr
                  case Some(k) => Some(FramePrAt(toks, k)))
      && q.graphic == (match LastStart(toks, i, InlineDelegated, "graphic")
                  case None => r.graphic
                  case Some(k) => Some(GraphicAt(toks, k, decodeGeom)))
    decreases |toks| - i
  {
    match Pull(toks, i)
    case Eof =>
    case Fault(_) =>
    case Got(t) =>
      if !t.Start? {
        InlineDelegates(r, toks, i + 1, decodeGeom);
      } else if InlineCheck(t.tag).None? {
        var q := InlineStep(r, toks, i, decodeGeom);
        var local := t.tag.name.local;
        assert q.docPr == if local == "docPr" then Some(DocPrAt(toks, i)) else r.docPr;
        assert q.cNvGraphicFramePr == if local == "cNvGraphicFramePr" then Some(FramePrAt(toks, i)) else r.cNvGraphicFramePr;
        assert q.graphic == if local == "graphic" then Some(GraphicAt(toks, i, decodeGeom)) else r.graphic;
        InlineDelegates(q, toks, Step(toks, i, InlineDelegated), decodeGeom);
      }
  }

  /** An inline's extent is read in place with getAtt, so an extent without attributes is
      an error, and the extent record is kept with cx = 0. */
  lemma InlineExtentRequired(decodeGeom: Decoder<APrstGeom>)
    ensures var inline := Name("wp", "inline");
      var extent := Name("wp", "extent");
      InlineSpec(ZeroInline, Tag(inline, []), [Start(Tag(extent, [])), End(extent), End(inline)], decodeGeom)
      == (ZeroInline.(extent := Some(ZeroExtent)), Some(SyntaxErr("")))
  {
  }

  /* ================= wp:anchor ================= */

  /** A floating frame: distances from the text (EMU), six integer flags, and its optional
      children. wrapNone is a presence marker. */
  datatype WPAnchor = WPAnchor(distT: int64, distB: int64, distL: int64, distR: int64,
                               simplePos: int64, relativeHeight: int64, behindDoc: int64,
                               locked: int64, layoutInCell: int64, allowOverlap: int64,
                               simplePosXY: Option<WPSimplePos>, positionH: Option<Position>,
                               positionV: Option<Position>, extent: Option<WPExtent>,
                               effectExtent: Option<WPEffectExtent>, wrapNone: bool,
                               wrapSquare: Option<WPWrapSquare>, docPr: Option<WPDocPr>,
                               cNvGraphicFramePr: Option<WPCNvGraphicFramePr>, graphic: Option<AGraphic>)

  const ZeroAnchor := WPAnchor(0, 0, 0, 0, 0, 0, 0, 0, 0, 0, None, None, None, None, None, false, None, None, None, None)

  /** The anchor's numeric attributes: the four distances (ParseInt) and the six flags
      (Atoi), in the order the record declares them. */
  const AnchorNumbers: seq<string> :=
    ["distT", "distB", "distL", "distR", "simplePos", "relativeHeight", "behindDoc", "locked", "layoutInCell", "allowOverlap"]

  /** The values of the anchor's numeric attributes, in the order of AnchorNumbers. */
  function Numbers(r: WPAnchor): (s: seq<int64>)
    ensures |s| == |AnchorNumbers|
  {
    [r.distT, r.distB, r.distL, r.distR, r.simplePos, r.relativeHeight, r.behindDoc, r.locked, r.layoutInCell, r.allowOverlap]
  }

  /** The ten numbers are where the anchor differs from r, if anywhere. */
  predicate SameButNumbers(q: WPAnchor, r: WPAnchor)
  {
    q == r.(distT := q.distT, distB := q.distB, distL := q.distL, distR := q.distR, simplePos := q.simplePos,
            relativeHeight := q.relativeHeight, behindDoc := q.behindDoc, locked := q.locked,
            layoutInCell := q.layoutInCell, allowOverlap := q.allowOverlap)
  }

  /** The anchor with the numeric attribute named AnchorNumbers[x] set to v. */
  function WithNumber(r: WPAnchor, x: nat, v: int64): (q: WPAnchor)
    requires x < |AnchorNumbers|
    ensures Numbers(q) == Numbers(r)[x := v]
    ensures SameButNumbers(q, r)
  {
    if x == 0 then r.(distT := v)
    else if x == 1 then r.(distB := v)
    else if x == 2 then r.(distL := v)
    else if x == 3 then r.(distR := v)
    else if x == 4 then r.(simplePos := v)
    else if x == 5 then r.(relativeHeight := v)
    else if x == 6 then r.(behindDoc := v)
    else if x == 7 then r.(locked := v)
    else if x == 8 then r.(layoutInCell := v)
    else r.(allowOverlap := v)
  }

  /** Position of a name in AnchorNumbers, if it is one. */
  function NumberIndex(local: string): (x: Option<nat>)
    ensures x.Some? ==> x.value < |AnchorNumbers| && AnchorNumbers[x.value] == local
    ensures x.None? ==> local !in AnchorNumbers
  {
    if local == "distT" then Some(0)
    else if local == "distB" then Some(1)
    else if local == "distL" then Some(2)
    else if local == "distR" then Some(3)
    else if local == "simplePos" then Some(4)
    else if local == "relativeHeight" then Some(5)
    else if local == "behindDoc" then Some(6)
    else if local == "locked" then Some(7)
    else if local == "layoutInCell" then Some(8)
    else if local == "allowOverlap" then Some(9)
    else None
  }

  /** The attribute loop of WPAnchor.UnmarshalXML: each of the ten numeric attributes is
      parsed and stored (also when malformed); the first malformed one ends the decode. */
  function AnchorAttrs(r: WPAnchor, attrs: seq<Attr>): (WPAnchor, Option<Error>)
    decreases |attrs|
  {
    if attrs == [] then (r, None)
    else match NumberIndex(attrs[0].name.local)
      case None => AnchorAttrs(r, attrs[1..])
      case Some(x) =>
        var n := ParseInt(attrs[0].value);
        if n.err.Some? then (WithNumber(r, x, n.value), n.err) else AnchorAttrs(WithNumber(r, x, n.value), attrs[1..])
  }

  const AnchorDelegated: set<string> :=
    {"positionH", "positionV", "extent", "effectExtent", "docPr", "cNvGraphicFramePr", "graphic"}

  /** The error an in-place child makes the anchor loop return. */
  function AnchorCheck(tag: Tag): Option<Error>
  {
    if tag.name.local == "simplePos" then InPlaceSimplePos(tag).1 else None
  }

  /** The anchor after the loop has handled the start tag at position k: simplePos,
      wrapNone and wrapSquare are read in place (simplePos is stored even when a value
      then fails to parse); the seven delegated children are decoded from a fresh value
      with their errors dropped; any other start tag changes nothing. */
  function AnchorStep(r: WPAnchor, toks: seq<Token>, k: nat, decodeInt: Decoder<int64>, decodeGeom: Decoder<APrstGeom>): (q: WPAnchor)
    requires k < |toks| && toks[k].Start?
    ensures Numbers(q) == Numbers(r)
  {
    var tag := toks[k].tag;
    var local := tag.name.local;
    if local == "simplePos" then r.(simplePosXY := Some(InPlaceSimplePos(tag).0))
    else if local == "positionH" then r.(positionH := Some(PositionAt(toks, k, decodeInt)))
    else if local == "positionV" then r.(positionV := Some(PositionAt(toks, k, decodeInt)))
    else if local == "extent" then r.(extent := Some(ExtentAt(toks, k)))
    else if local == "effectExtent" then r.(effectExtent := Some(EffectExtentAt(toks, k)))
    else if local == "wrapNone" then r.(wrapNone := true)
    else if local == "wrapSquare" then r.(wrapSquare := Some(WPWrapSquare(GetAtt(tag.attrs, "wrapText"))))
    else if local == "docPr" then r.(docPr := Some(DocPrAt(toks, k)))
    else if local == "cNvGraphicFramePr" then r.(cNvGraphicFramePr := Some(FramePrAt(toks, k)))
    else if local == "graphic" then r.(graphic := Some(GraphicAt(toks, k, decodeGeom)))
    else r
  }

  /** The token loop of WPAnchor.UnmarshalXML from cursor i: a simplePos that fails ends
      the decode with its error (AnchorCheck); delegated children are skipped past their
      subtree; other tokens are passed over one at a time. */
  function AnchorLoop(r: WPAnchor, toks: seq<Token>, i: nat, decodeInt: Decoder<int64>, decodeGeom: Decoder<APrstGeom>)
    : (WPAnchor, Option<Error>)
    requires i <= |toks|
    decreases |toks| - i
  {
    match Pull(toks, i)
    case Eof => (r, None)
    case Fault(e) => (r, Some(e))
    case Got(t) =>
      if !t.Start? then AnchorLoop(r, toks, i + 1, decodeInt, decodeGeom)
      else
        var q := AnchorStep(r, toks, i, decodeInt, decodeGeom);
        if AnchorCheck(t.tag).Some? then (q, AnchorCheck(t.tag))
        else AnchorLoop(q, toks, Step(toks, i, AnchorDelegated), decodeInt, decodeGeom)
  }

  function AnchorSpec(r0: WPAnchor, start: Tag, toks: seq<Token>, decodeInt: Decoder<int64>, decodeGeom: Decoder<APrstGeom>)
    : (WPAnchor, Option<Error>)
  {
    var (r, err) := AnchorAttrs(r0, start.attrs);
    if err.Some? then (r, err) else AnchorLoop(r, toks, 0, decodeInt, decodeGeom)
  }

  /** The in-place read of a simplePos child: a fresh record, x then y, each stored
      before it is checked. */
  method ReadSimplePos(tag: Tag) returns (value: WPSimplePos, err: Option<Error>)
    ensures (value, err) == InPlaceSimplePos(tag)
  {
    value := WPSimplePos(0, 0);
    var x := ParseInt(GetAtt(tag.attrs, "x"));
    value := value.(x := x.value);
    if x.err.Some? {
      return value, x.err;
    }
    var y := ParseInt(GetAtt(tag.attrs, "y"));
    value := value.(y := y.value);
    return value, y.err;
  }

  /** The attribute loop of WPAnchor.UnmarshalXML. */
  method DecodeAnchorAttrs(r0: WPAnchor, attrs: seq<Attr>) returns (r: WPAnchor, err: Option<Error>)
    ensures (r, err) == AnchorAttrs(r0, attrs)
  {
    r := r0;
    for k := 0 to |attrs|
      invariant AnchorAttrs(r, attrs[k..]) == AnchorAttrs(r0, attrs)
    {
      var attr := attrs[k];
      assert attrs[k..][1..] == attrs[k + 1..];
      var x := NumberIndex(attr.name.local);
      if x.Some? {
        var n := ParseInt(attr.value);
        r := WithNumber(r, x.value, n.value);
        if n.err.Some? {
          return r, n.err;
        }
      }
    }
    return r, None;
  }

  /** The loop body of WPAnchor.UnmarshalXML for the start tag at position i: the record it
      leaves and the error it returns. */
  method DecodeAnchorChild(r: WPAnchor, toks: seq<Token>, i: nat, decodeInt: Decoder<int64>, decodeGeom: Decoder<APrstGeom>)
    returns (q: WPAnchor, err: Option<Error>)
    requires i < |toks| && toks[i].Start?
    ensures q == AnchorStep(r, toks, i, decodeInt, decodeGeom) && err == AnchorCheck(toks[i].tag)
  {
    q := r;
    var t := toks[i];
    var local := t.tag.name.local;
    if local == "simplePos" {
      var value, e := ReadSimplePos(t.tag);
      q := q.(simplePosXY := Some(value));
      if e.Some? {
        return q, e;
      }
    } else if local == "positionH" {
      var value, _ := DecodePosition(ZeroPosition, t.tag, Subtree(toks, i + 1), decodeInt);
      q := q.(positionH := Some(value));
    } else if local == "positionV" {
      var value, _ := DecodePosition(ZeroPosition, t.tag, Subtree(toks, i + 1), decodeInt);
      q := q.(positionV := Some(value));
    } else if local == "extent" {
      var value, _ := DecodeExtent(ZeroExtent, t.tag, Subtree(toks, i + 1));
      q := q.(extent := Some(value));
    } else if local == "effectExtent" {
      var value, _ := DecodeEffectExtent(ZeroEffectExtent, t.tag, Subtree(toks, i + 1));
      q := q.(effectExtent := Some(value));
    } else if local == "wrapNone" {
      q := q.(wrapNone := true);
    } else if local == "wrapSquare" {
      q := q.(wrapSquare := Some(WPWrapSquare(GetAtt(t.tag.attrs, "wrapText"))));
    } else if local == "docPr" {
      var value, _ := DecodeDocPr(ZeroDocPr, t.tag, Subtree(toks, i + 1));
      q := q.(docPr := Some(value));
    } else if local == "cNvGraphicFramePr" {
      var value, _ := DecodeCNvGraphicFramePr(ZeroCNvGraphicFramePr, t.tag, Subtree(toks, i + 1));
      q := q.(cNvGraphicFramePr := Some(value));
    } else if local == "graphic" {
      var value, _ := DecodeGraphic(ZeroGraphic, t.tag, Subtree(toks, i + 1), decodeGeom);
      q := q.(graphic := Some(value));
    }
    return q, None;
  }

  /** The token loop of WPAnchor.UnmarshalXML, run from the record the attribute loop produced. */
  method DecodeAnchorChildren(r0: WPAnchor, toks: seq<Token>, decodeInt: Decoder<int64>, decodeGeom: Decoder<APrstGeom>)
    returns (r: WPAnchor, err: Option<Error>)
    ensures (r, err) == AnchorLoop(r0, toks, 0, decodeInt, decodeGeom)
  {
    r := r0;
    var i := 0;
    while true
      invariant i <= |toks|
      invariant AnchorLoop(r, toks, i, decodeInt, decodeGeom) == AnchorLoop(r0, toks, 0, decodeInt, decodeGeom)
      decreases |toks| - i
    {
      var q := Pull(toks, i);
      if q.Eof? {
        break;
      }
      if q.Fault? {
        return r, Some(q.err);
      }
      var t := q.tok;
      if !t.Start? {
        i := i + 1;
        continue;
      }
      var r', e := DecodeAnchorChild(r, toks, i, decodeInt, decodeGeom);
      if e.Some? {
        return r', e;
      }
      r, i := r', Step(toks, i, AnchorDelegated);
    }
    return r, None;
  }

  /** WPAnchor.UnmarshalXML: the attribute loop, then the token loop. */
  method DecodeAnchor(r0: WPAnchor, start: Tag, toks: seq<Token>, decodeInt: Decoder<int64>, decodeGeom: Decoder<APrstGeom>)
    returns (r: WPAnchor, err: Option<Error>)
    ensures (r, err) == AnchorSpec(r0, start, toks, decodeInt, decodeGeom)
  {
    r, err := DecodeAnchorAttrs(r0, start.attrs);
    if err.Some? {
      return r, err;
    }
    r, err := DecodeAnchorChildren(r, toks, decodeInt, decodeGeom);
  }


  /** The value the attribute loop leaves in the numeric attribute AnchorNumbers[x]. */
  function NumberSetting(attrs: seq<Attr>, r: WPAnchor, x: nat): int64
    requires x < |AnchorNumbers|
  {
    Setting(attrs, AnchorNumbers[x], Numbers(r)[x])
  }

  /** The anchor attribute loop fails exactly on the first malformed numeric attribute,
      returning its error. */
  lemma {:induction false} AnchorAttrsError(r: WPAnchor, attrs: seq<Attr>)
    ensures AnchorAttrs(r, attrs).1 == FirstMalformed(attrs, set x | x in AnchorNumbers)
    decreases |attrs|
  {
    if attrs != [] {
      var n := ParseInt(attrs[0].value);
      match NumberIndex(attrs[0].name.local)
      case None => AnchorAttrsError(r, attrs[1..]);
      case Some(y) => AnchorAttrsError(WithNumber(r, y, n.value), attrs[1..]);
    }
  }

  /** The anchor attribute loop changes nothing but the ten numbers, and on success each
      holds the last value given for it (or is unchanged). Whether it succeeds or not, each
      holds the last value given for it among the attributes handled, the malformed one
      that ends the loop included (it is stored before it is checked). */
  lemma {:induction false} AnchorAttrsMeaning(r: WPAnchor, attrs: seq<Attr>)
    ensures var (q, err) := AnchorAttrs(r, attrs);
      && SameButNumbers(q, r)
      && (err.None? ==> forall x :: 0 <= x < |AnchorNumbers| ==> Numbers(q)[x] == NumberSetting(attrs, r, x))
      && (forall x :: 0 <= x < |AnchorNumbers| ==>
            Numbers(q)[x] == NumberSetting(StoredAttrs(attrs, set y | y in AnchorNumbers), r, x))
    decreases |attrs|
  {
    forall x | 0 <= x < |AnchorNumbers| {
      AnchorAttrsStored(r, attrs, x);
    }
    if attrs != [] {
      var n := ParseInt(attrs[0].value);
      match NumberIndex(attrs[0].name.local)
      case None =>
        AnchorAttrsMeaning(r, attrs[1..]);
        forall x | 0 <= x < |AnchorNumbers|
          ensures NumberSetting(attrs, r, x) == NumberSetting(attrs[1..], r, x)
        {
          SettingCons(attrs, AnchorNumbers[x], Numbers(r)[x]);
        }
      case Some(y) =>
        var r' := WithNumber(r, y, n.value);
        if n.err.None? {
          AnchorAttrsMeaning(r', attrs[1..]);
          forall x | 0 <= x < |AnchorNumbers|
            ensures NumberSetting(attrs, r, x) == NumberSetting(attrs[1..], r', x)
          {
            SettingCons(attrs, AnchorNumbers[x], Numbers(r)[x]);
          }
        }
    }
  }

  /** The number AnchorNumbers[x] the anchor attribute loop leaves is the one the handled
      attributes give it. */
  lemma {:induction false} AnchorAttrsStored(r: WPAnchor, attrs: seq<Attr>, x: nat)
    requires x < |AnchorNumbers|
    ensures Numbers(AnchorAttrs(r, attrs).0)[x] == NumberSetting(StoredAttrs(attrs, set y | y in AnchorNumbers), r, x)
    decreases |attrs|
  {
    var names := set y | y in AnchorNumbers;
    if attrs != [] {
      var n := ParseInt(attrs[0].value);
      var local := attrs[0].name.local;
      HandledAttrsCons(attrs, names);
      var rest := StoredAttrs(attrs[1..], names);
      match NumberIndex(local)
      case None =>
        assert local !in names;
        assert StoredAttrs(attrs, names) == [attrs[0]] + rest;
        SettingPrepend(attrs[0], rest, AnchorNumbers[x], Numbers(r)[x]);
        assert AnchorAttrs(r, attrs) == AnchorAttrs(r, attrs[1..]);
        AnchorAttrsStored(r, attrs[1..], x);
      case Some(y) =>
        assert local in names;
        var r' := WithNumber(r, y, n.value);
        assert Numbers(r')[x] == if local == AnchorNumbers[x] then n.value else Numbers(r)[x];
        if n.err.None? {
          assert StoredAttrs(attrs, names) == [attrs[0]] + rest;
          SettingPrepend(attrs[0], rest, AnchorNumbers[x], Numbers(r)[x]);
          assert AnchorAttrs(r, attrs) == AnchorAttrs(r', attrs[1..]);
          AnchorAttrsStored(r', attrs[1..], x);
        } else {
          assert StoredAttrs(attrs, names) == [attrs[0]];
          SettingOne(attrs[0], AnchorNumbers[x], Numbers(r)[x]);
          assert AnchorAttrs(r, attrs).0 == r';
        }
    }
  }

  /** The anchor loop fails exactly at a tokenizer failure or at the first simplePos child
      whose x or y does not parse (absent included), returning that error; delegated
      children never make it fail. */
  lemma {:induction false} AnchorErrors(r: WPAnchor, toks: seq<Token>, i: nat, decodeInt: Decoder<int64>, decodeGeom: Decoder<APrstGeom>)
    requires i <= |toks|
    ensures AnchorLoop(r, toks, i, decodeInt, decodeGeom).1 == ScanError(toks, i, AnchorDelegated, AnchorCheck)
    decreases |toks| - i
  {
    match Pull(toks, i)
    case Eof =>
    case Fault(_) =>
    case Got(t) =>
      if !t.Start? {
        AnchorErrors(r, toks, i + 1, decodeInt, decodeGeom);
      } else if AnchorCheck(t.tag).None? {
        var q := AnchorStep(r, toks, i, decodeInt, decodeGeom);
        AnchorErrors(q, toks, Step(toks, i, AnchorDelegated), decodeInt, decodeGeom);
      }
  }

  /** The token loop never changes the ten numbers, which only the attributes set. */
  lemma {:induction false} AnchorNumbersKept(r: WPAnchor, toks: seq<Token>, i: nat, decodeInt: Decoder<int64>, decodeGeom: Decoder<APrstGeom>)
    requires i <= |toks|
    ensures Numbers(AnchorLoop(r, toks, i, decodeInt, decodeGeom).0) == Numbers(r)
    decreases |toks| - i
  {
    match Pull(toks, i)
    case Eof =>
    case Fault(_) =>
    case Got(t) =>
      if !t.Start? {
        AnchorNumbersKept(r, toks, i + 1, decodeInt, decodeGeom);
      } else if AnchorCheck(t.tag).None? {
        var q := AnchorStep(r, toks, i, decodeInt, decodeGeom);
        AnchorNumbersKept(q, toks, Step(toks, i, AnchorDelegated), decodeInt, decodeGeom);
      }
  }

  /** On success the wrap fields are set independently: wrapNone is set exactly when it
      was already set or a wrapNone child was read, and wrapSquare holds the wrapText of
      the LAST wrapSquare child (unchanged without one). simplePos likewise holds the last
      simplePos child's x and y. */
  lemma {:induction false} AnchorInPlace(r: WPAnchor, toks: seq<Token>, i: nat, decodeInt: Decoder<int64>, decodeGeom: Decoder<APrstGeom>)
    requires i <= |toks|
    ensures var (q, err) := AnchorLoop(r, toks, i, decodeInt, decodeGeom);
      err.None? ==>
        && (q.wrapNone <==> r.wrapNone || LastStart(toks, i, AnchorDelegated, "wrapNone").Some?)
        && q.wrapSquare == (match LastStart(toks, i, AnchorDelegated, "wrapSquare")
                    case None => r.wrapSquare
                    case Some(k) => Some(WPWrapSquare(GetAtt(TagAt(toks, k).attrs, "wrapText"))))
        && q.simplePosXY == (match LastStart(toks, i, AnchorDelegated, "simplePos")
                    case None => r.simplePosXY
                    case Some(k) => Some(InPlaceSimplePos(TagAt(toks, k)).0))
    decreases |toks| - i
  {
    match Pull(toks, i)
    case Eof =>
    case Fault(_) =>
    case Got(t) =>
      if !t.Start? {
        AnchorInPlace(r, toks, i + 1, decodeInt, decodeGeom);
      } else if AnchorCheck(t.tag).None? {
        var q := AnchorStep(r, toks, i, decodeInt, decodeGeom);
        var local := t.tag.name.local;
        assert q.wrapNone == if local == "wrapNone" then true else r.wrapNone;
        assert q.wrapSquare == if local == "wrapSquare" then Some(WPWrapSquare(GetAtt(t.tag.attrs, "wrapText"))) else r.wrapSquare;
        assert q.simplePosXY == if local == "simplePos" then Some(InPlaceSimplePos(t.tag).0) else r.simplePosXY;
        AnchorInPlace(q, toks, Step(toks, i, AnchorDelegated), decodeInt, decodeGeom);
      }
  }

  /** On success positionH and positionV each hold the LAST child of their kind decoded
      from a fresh value (whatever that child's own error), or are unchanged without one. */
  lemma {:induction false} AnchorPlacement(r: WPAnchor, toks: seq<Token>, i: nat, decodeInt: Decoder<int64>, decodeGeom: Decoder<APrstGeom>)
    requires i <= |toks|
    ensures var (q, err) := AnchorLoop(r, toks, i, decodeInt, decodeGeom);
      err.None? ==>
        && q.positionH == (match LastStart(toks, i, AnchorDelegated, "positionH")
                    case None => r.positionH
                    case Some(k) => Some(PositionAt(toks, k, decodeInt)))
        && q.positionV == (match LastStart(toks, i, AnchorDelegated, "positionV")
                    case None => r.positionV
                    case Some(k) => Some(PositionAt(toks, k, decodeInt)))
    decreases |toks| - i
  {
    match Pull(toks, i)
    case Eof =>
    case Fault(_) =>
    case Got(t) =>
      if !t.Start? {
        AnchorPlacement(r, toks, i + 1, decodeInt, decodeGeom);
      } else if AnchorCheck(t.tag).None? {
        var q := AnchorStep(r, toks, i, decodeInt, decodeGeom);
        var local := t.tag.name.local;
        assert q.positionH == if local == "positionH" then Some(PositionAt(toks, i, decodeInt)) else r.positionH;
        assert q.positionV == if local == "positionV" then Some(PositionAt(toks, i, decodeInt)) else r.positionV;
        AnchorPlacement(q, toks, Step(toks, i, AnchorDelegated), decodeInt, decodeGeom);
      }
  }

  /** As AnchorPlacement, for extent and effectExtent. */
  lemma {:induction false} AnchorExtents(r: WPAnchor, toks: seq<Token>, i: nat, decodeInt: Decoder<int64>, decodeGeom: Decoder<APrstGeom>)
    requires i <= |toks|
    ensures var (q, err) := AnchorLoop(r, toks, i, decodeInt, decodeGeom);
      err.None? ==>
        && q.extent == (match LastStart(toks, i, AnchorDelegated, "extent")
                    case None => r.extent
                    case Some(k) => Some(ExtentAt(toks, k)))
        && q.effectExtent == (match LastStart(toks, i, AnchorDelegated, "effectExtent")
                    case None => r.effectExtent
                    case Some(k) => Some(EffectExtentAt(toks, k)))
    decreases |toks| - i
  {
    match Pull(toks, i)
    case Eof =>
    case Fault(_) =>
    case Got(t) =>
      if !t.Start? {
        AnchorExtents(r, toks, i + 1, decodeInt, decodeGeom);
      } else if AnchorCheck(t.tag).None? {
        var q := AnchorStep(r, toks, i, decodeInt, decodeGeom);
        var local := t.tag.name.local;
        assert q.extent == if local == "extent" then Some(ExtentAt(toks, i)) else r.extent;
        assert q.effectExtent == if local == "effectExtent" then Some(EffectExtentAt(toks, i)) else r.effectExtent;
        AnchorExtents(q, toks, Step(toks, i, AnchorDelegated), decodeInt, decodeGeom);
      }
  }

  /** As AnchorPlacement, for docPr and cNvGraphicFramePr. */
  lemma {:induction false} AnchorFrame(r: WPAnchor, toks: seq<Token>, i: nat, decodeInt: Decoder<int64>, decodeGeom: Decoder<APrstGeom>)
    requires i <= |toks|
    ensures var (q, err) := AnchorLoop(r, toks, i, decodeInt, decodeGeom);
      err.None? ==>
        && q.docPr == (match LastStart(toks, i, AnchorDelegated, "docPr")
                    case None => r.docPr
                    case Some(k) => Some(DocPrAt(toks, k)))
        && q.cNvGraphicFramePr == (match LastStart(toks, i, AnchorDelegated, "cNvGraphicFramePr")
                    case None => r.cNvGraphicFramePr
                    case Some(k) => Some(FramePrAt(toks, k)))
    decreases |toks| - i
  {
    match Pull(toks, i)
    case Eof =>
    case Fault(_) =>
    case Got(t) =>
      if !t.Start? {
        AnchorFrame(r, toks, i + 1, decodeInt, decodeGeom);
      } else if AnchorCheck(t.tag).None? {
        var q := AnchorStep(r, toks, i, decodeInt, decodeGeom);
        var local := t.tag.name.local;
        assert q.docPr == if local == "docPr" then Some(DocPrAt(toks, i)) else r.docPr;
        assert q.cNvGraphicFramePr == if local == "cNvGraphicFramePr" then Some(FramePrAt(toks, i)) else r.cNvGraphicFramePr;
        AnchorFrame(q, toks, Step(toks, i, AnchorDelegated), decodeInt, decodeGeom);
      }
  }

  /** As AnchorPlacement, for graphic. */
  lemma {:induction false} AnchorGraphic(r: WPAnchor, toks: seq<Token>, i: nat, decodeInt: Decoder<int64>, decodeGeom: Decoder<APrstGeom>)
    requires i <= |toks|
    ensures var (q, err) := AnchorLoop(r, toks, i, decodeInt, decodeGeom);
      err.None? ==>
        q.graphic == (match LastStart(toks, i, AnchorDelegated, "graphic")
                    case None => r.graphic
                    case Some(k) => Some(GraphicAt(toks, k, decodeGeom)))
    decreases |toks| - i
  {
    match Pull(toks, i)
    case Eof =>
    case Fault(_) =>
    case Got(t) =>
      if !t.Start? {
        AnchorGraphic(r, toks, i + 1, decodeInt, decodeGeom);
      } else if AnchorCheck(t.tag).None? {
        var q := AnchorStep(r, toks, i, decodeInt, decodeGeom);
        assert q.graphic == if t.tag.name.local == "graphic" then Some(GraphicAt(toks, i, decodeGeom)) else r.graphic;
        AnchorGraphic(q, toks, Step(toks, i, AnchorDelegated), decodeInt, decodeGeom);
      }
  }

  lemma NumberIndexOf(x: nat)
    requires x < |AnchorNumbers|
    ensures NumberIndex(AnchorNumbers[x]) == Some(x)
  {
  }

  /** One step of the anchor attribute loop over a well-formed numeric attribute. */
  lemma AnchorAttrsCons(r: WPAnchor, attrs: seq<Attr>, x: nat, v: int64)
    requires attrs != [] && x < |AnchorNumbers| && attrs[0].name.local == AnchorNumbers[x]
    requires ParseInt(attrs[0].value) == Num(v, None)
    ensures AnchorAttrs(r, attrs) == AnchorAttrs(WithNumber(r, x, v), attrs[1..])
  {
    NumberIndexOf(x);
  }

  lemma NumbersSplice(a: seq<int64>, ns: seq<int64>, k: nat)
    requires |a| == |ns| && k < |a|
    ensures a[k := ns[k]][..k + 1] + ns[k + 1..] == a[..k] + ns[k..]
  {
    assert ns[k..] == [ns[k]] + ns[k + 1..];
  }

  /** Attributes rendering ns in the order of AnchorNumbers, read from position k on, set
      the numbers from k on to ns and change nothing else. */
  lemma {:induction false} AnchorAttrsFrom(r: WPAnchor, attrs: seq<Attr>, ns: seq<int64>, k: nat)
    requires |attrs| == |ns| == |AnchorNumbers| && k <= |attrs|
    requires forall x :: 0 <= x < |attrs| ==> attrs[x].name.local == AnchorNumbers[x] && attrs[x].value == FormatInt(ns[x])
    ensures var (q, err) := AnchorAttrs(r, attrs[k..]);
      err.None? && Numbers(q) == Numbers(r)[..k] + ns[k..]
    decreases |attrs| - k
  {
    if k == |attrs| {
      assert attrs[k..] == [];
      assert Numbers(r)[..k] + ns[k..] == Numbers(r);
    } else {
      FormatIntRoundTrip(ns[k]);
      assert attrs[k..][0] == attrs[k];
      assert attrs[k..][1..] == attrs[k + 1..];
      var r' := WithNumber(r, k, ns[k]);
      AnchorAttrsCons(r, attrs[k..], k, ns[k]);
      AnchorAttrsFrom(r', attrs, ns, k + 1);
      NumbersSplice(Numbers(r), ns, k);
    }
  }

  /** The token loop over a lone extent child carrying the rendering of cx and cy. */
  lemma AnchorExtentOnly(r: WPAnchor, space: string, cx: int64, cy: int64, end: Name, toks: seq<Token>,
                         decodeInt: Decoder<int64>, decodeGeom: Decoder<APrstGeom>)
    requires toks == [Start(Tag(Name(space, "extent"), [Attr(Name("", "cx"), FormatInt(cx)), Attr(Name("", "cy"), FormatInt(cy))])),
                      End(Name(space, "extent")), End(end)]
    ensures AnchorLoop(r, toks, 0, decodeInt, decodeGeom) == (r.(extent := Some(WPExtent(cx, cy))), None)
  {
    ExtentRoundTrip(space, cx, cy);
    assert After(toks, 1) == 2;
    assert Subtree(toks, 1) == [End(Name(space, "extent"))];
    assert ExtentAt(toks, 0) == WPExtent(cx, cy);
    var done := r.(extent := Some(WPExtent(cx, cy)));
    assert AnchorLoop(done, toks, 2, decodeInt, decodeGeom) == (done, None);
  }

  /** Round trip: an anchor whose start tag carries the base-10 rendering of any ten int64
      values (distT, distB, distL, distR, simplePos, relativeHeight, behindDoc, locked,
      layoutInCell, allowOverlap) and which holds an extent carrying the rendering of cx
      and cy decodes without error to exactly those numbers and that extent. */
  lemma AnchorRoundTrip(ns: seq<int64>, space: string, cx: int64, cy: int64, start: Tag, toks: seq<Token>,
                        decodeInt: Decoder<int64>, decodeGeom: Decoder<APrstGeom>)
    requires |start.attrs| == |ns| == |AnchorNumbers|
    requires forall x :: 0 <= x < |ns| ==> start.attrs[x] == Attr(Name("", AnchorNumbers[x]), FormatInt(ns[x]))
    requires toks == [Start(Tag(Name(space, "extent"), [Attr(Name("", "cx"), FormatInt(cx)), Attr(Name("", "cy"), FormatInt(cy))])),
                      End(Name(space, "extent")), End(start.name)]
    ensures var (q, err) := AnchorSpec(ZeroAnchor, start, toks, decodeInt, decodeGeom);
      err.None? && Numbers(q) == ns && q.extent == Some(WPExtent(cx, cy)) && SameButNumbers(q.(extent := None), ZeroAnchor)
  {
    AnchorAttrsFrom(ZeroAnchor, start.attrs, ns, 0);
    AnchorAttrsMeaning(ZeroAnchor, start.attrs);
    assert start.attrs[0..] == start.attrs;
    AnchorExtentOnly(AnchorAttrs(ZeroAnchor, start.attrs).0, space, cx, cy, start.name, toks, decodeInt, decodeGeom);
  }

  /** An anchor delegates its extent, whose error it drops: an extent with cx="abc" still
      decodes without error, keeping cx = 0. */
  lemma AnchorToleratesBadExtent(decodeInt: Decoder<int64>, decodeGeom: Decoder<APrstGeom>)
    ensures var anchor := Name("wp", "anchor");
      var extent := Name("wp", "extent");
      AnchorSpec(ZeroAnchor, Tag(anchor, []), [Start(Tag(extent, [Attr(Name("", "cx"), "abc")])), End(extent), End(anchor)],
                 decodeInt, decodeGeom)
      == (ZeroAnchor.(extent := Some(ZeroExtent)), None)
  {
    var anchor := Name("wp", "anchor");
    var extent := Name("wp", "extent");
    var toks := [Start(Tag(extent, [Attr(Name("", "cx"), "abc")])), End(extent), End(anchor)];
    assert !IsDecimal("abc") by {
      assert !IsDigit("abc"[0]);
    }
    assert ScopeEnd(toks, 1, 0) == 2;
    assert After(toks, 1) == 2;
    assert ExtentAt(toks, 0) == ZeroExtent;
  }

  /** wrapNone and wrapSquare are not exclusive: an anchor holding both keeps both; and a
      wrapSquare nested in an unknown element is still read. */
  lemma AnchorBothWraps(decodeInt: Decoder<int64>, decodeGeom: Decoder<APrstGeom>)
    ensures var anchor := Name("wp", "anchor");
      var none := Name("wp", "wrapNone");
      var square := Name("wp", "wrapSquare");
      var unknown := Name("mc", "Choice");
      AnchorSpec(ZeroAnchor, Tag(anchor, []),
                 [Start(Tag(none, [])), End(none),
                  Start(Tag(unknown, [])), Start(Tag(square, [Attr(Name("", "wrapText"), "bothSides")])), End(square), End(unknown),
                  End(anchor)],
                 decodeInt, decodeGeom)
      == (ZeroAnchor.(wrapNone := true, wrapSquare := Some(WPWrapSquare("bothSides"))), None)
  {
    var anchor := Name("wp", "anchor");
    var none := Name("wp", "wrapNone");
    var square := Name("wp", "wrapSquare");
    var unknown := Name("mc", "Choice");
    var toks := [Start(Tag(none, [])), End(none),
                 Start(Tag(unknown, [])), Start(Tag(square, [Attr(Name("", "wrapText"), "bothSides")])), End(square), End(unknown),
                 End(anchor)];
    var done := ZeroAnchor.(wrapNone := true, wrapSquare := Some(WPWrapSquare("bothSides")));
    assert AnchorLoop(done, toks, 6, decodeInt, decodeGeom) == (done, None);
    assert AnchorLoop(done, toks, 5, decodeInt, decodeGeom) == (done, None);
    assert AnchorLoop(done, toks, 4, decodeInt, decodeGeom) == (done, None);
    assert AnchorLoop(ZeroAnchor.(wrapNone := true), toks, 3, decodeInt, decodeGeom) == (done, None);
    assert AnchorLoop(ZeroAnchor.(wrapNone := true), toks, 1, decodeInt, decodeGeom) == (done, None);
  }

  /* ================= w:drawing ================= */

  /** A drawing: an inline frame and / or an anchored frame. */
  datatype Drawing = Drawing(inline: Option<WPInline>, anchor: Option<WPAnchor>)

  const ZeroDrawing := Drawing(None, None)

  const DrawingDelegated: set<string> := {"inline", "anchor"}

  function InlineAt(toks: seq<Token>, k: nat, decodeGeom: Decoder<APrstGeom>): WPInline
    requires k < |toks| && toks[k].Start?
  {
    InlineSpec(ZeroInline, toks[k].tag, Subtree(toks, k + 1), decodeGeom).0
  }

  function AnchorAt(toks: seq<Token>, k: nat, decodeInt: Decoder<int64>, decodeGeom: Decoder<APrstGeom>): WPAnchor
    requires k < |toks| && toks[k].Start?
  {
    AnchorSpec(ZeroAnchor, toks[k].tag, Subtree(toks, k + 1), decodeInt, decodeGeom).0
  }

  /** The drawing after the loop has handled the start tag at position k: inline and
      anchor are decoded from a fresh value with their errors dropped. */
  function DrawingStep(r: Drawing, toks: seq<Token>, k: nat, decodeInt: Decoder<int64>, decodeGeom: Decoder<APrstGeom>): Drawing
    requires k < |toks| && toks[k].Start?
  {
    var local := toks[k].tag.name.local;
    if local == "inline" then r.(inline := Some(InlineAt(toks, k, decodeGeom)))
    else if local == "anchor" then r.(anchor := Some(AnchorAt(toks, k, decodeInt, decodeGeom)))
    else r
  }

  /** The token loop of Drawing.UnmarshalXML from cursor i; it fails only on a tokenizer
      failure. */
  function DrawingLoop(r: Drawing, toks: seq<Token>, i: nat, decodeInt: Decoder<int64>, decodeGeom: Decoder<APrstGeom>)
    : (Drawing, Option<Error>)
    requires i <= |toks|
    decreases |toks| - i
  {
    match Pull(toks, i)
    case Eof => (r, None)
    case Fault(e) => (r, Some(e))
    case Got(t) =>
      if !t.Start? then DrawingLoop(r, toks, i + 1, decodeInt, decodeGeom)
      else DrawingLoop(DrawingStep(r, toks, i, decodeInt, decodeGeom), toks, Step(toks, i, DrawingDelegated), decodeInt, decodeGeom)
  }

  /** Drawing.UnmarshalXML (the drawing element has no attributes it reads). */
  method DecodeDrawing(r0: Drawing, toks: seq<Token>, decodeInt: Decoder<int64>, decodeGeom: Decoder<APrstGeom>)
    returns (r: Drawing, err: Option<Error>)
    ensures (r, err) == DrawingLoop(r0, toks, 0, decodeInt, decodeGeom)
  {
    r := r0;
    var i := 0;
    while true
      invariant i <= |toks|
      invariant DrawingLoop(r, toks, i, decodeInt, decodeGeom) == DrawingLoop(r0, toks, 0, decodeInt, decodeGeom)
      decreases |toks| - i
    {
      var q := Pull(toks, i);
      if q.Eof? {
        break;
      }
      if q.Fault? {
        return r, Some(q.err);
      }
      var t := q.tok;
      if t.Start? && t.tag.name.local == "inline" {
        var value, _ := DecodeInline(ZeroInline, t.tag, Subtree(toks, i + 1), decodeGeom);
        r := r.(inline := Some(value));
        i := After(toks, i + 1);
      } else if t.Start? && t.tag.name.local == "anchor" {
        var value, _ := DecodeAnchor(ZeroAnchor, t.tag, Subtree(toks, i + 1), decodeInt, decodeGeom);
        r := r.(anchor := Some(value));
        i := After(toks, i + 1);
      } else {
        i := i + 1;
      }
    }
    return r, None;
  }

  /** The drawing decode fails exactly at a tokenizer failure met by its own loop; an
      inline or anchor that fails to decode does not make it fail. Whatever the outcome,
      inline and anchor each hold the LAST frame of their kind (decoded from a fresh
      value), or are unchanged without one, so a drawing may hold both. */
  lemma {:induction false} DrawingChildren(r: Drawing, toks: seq<Token>, i: nat, decodeInt: Decoder<int64>, decodeGeom: Decoder<APrstGeom>)
    requires i <= |toks|
    ensures var (q, err) := DrawingLoop(r, toks, i, decodeInt, decodeGeom);
      && err == ScanError(toks, i, DrawingDelegated, NoCheck)
      && q.inline == (match LastStart(toks, i, DrawingDelegated, "inline")
                      case None => r.inline
                      case Some(k) => Some(InlineAt(toks, k, decodeGeom)))
      && q.anchor == (match LastStart(toks, i, DrawingDelegated, "anchor")
                      case None => r.anchor
                      case Some(k) => Some(AnchorAt(toks, k, decodeInt, decodeGeom)))
    decreases |toks| - i
  {
    match Pull(toks, i)
    case Eof =>
    case Fault(_) =>
    case Got(t) =>
      if !t.Start? {
        DrawingChildren(r, toks, i + 1, decodeInt, decodeGeom);
      } else {
        DrawingChildren(DrawingStep(r, toks, i, decodeInt, decodeGeom), toks, Step(toks, i, DrawingDelegated), decodeInt, decodeGeom);
      }
  }

  /** Inline and anchor are not exclusive: a drawing holding an empty inline and an empty
      anchor decodes both. */
  lemma DrawingBoth(decodeInt: Decoder<int64>, decodeGeom: Decoder<APrstGeom>)
    ensures var drawing := Name("w", "drawing");
      var inline := Name("wp", "inline");
      var anchor := Name("wp", "anchor");
      DrawingLoop(ZeroDrawing, [Start(Tag(inline, [])), End(inline), Start(Tag(anchor, [])), End(anchor), End(drawing)],
                  0, decodeInt, decodeGeom)
      == (Drawing(Some(ZeroInline), Some(ZeroAnchor)), None)
  {
    var drawing := Name("w", "drawing");
    var inline := Name("wp", "inline");
    var anchor := Name("wp", "anchor");
    var toks := [Start(Tag(inline, [])), End(inline), Start(Tag(anchor, [])), End(anchor), End(drawing)];
    assert After(toks, 1) == 2;
    assert After(toks, 3) == 4;
    assert Subtree(toks, 1) == [End(inline)];
    assert Subtree(toks, 3) == [End(anchor)];
    assert InlineLoop(ZeroInline, [End(inline)], 1, decodeGeom) == (ZeroInline, None);
    assert InlineAt(toks, 0, decodeGeom) == ZeroInline;
    assert AnchorLoop(ZeroAnchor, [End(anchor)], 1, decodeInt, decodeGeom) == (ZeroAnchor, None);
    assert AnchorAt(toks, 2, decodeInt, decodeGeom) == ZeroAnchor;
    var d := Drawing(Some(ZeroInline), Some(ZeroAnchor));
    assert DrawingLoop(d, toks, 4, decodeInt, decodeGeom) == (d, None);
    assert DrawingLoop(ZeroDrawing.(inline := Some(ZeroInline)), toks, 2, decodeInt, decodeGeom) == (d, None);
  }
}
