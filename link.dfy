/** The hyperlink of WordprocessingML (ECMA-376 Part 1, section 17.16.22): a reference id
    (r:id, resolved by the package's relationships) and the run it holds. The run and its
    decoder are defined outside this model, so the run type is a parameter and its
    decoder a function passed in. */
module Link {
  import opened Xml

  datatype Hyperlink<R> = Hyperlink(id: string, run: R)

  const RunDelegated: set<string> := {"r"}

  /** The hyperlink after the loop has handled the start tag at position k: an r child is
      decoded INTO the run already held (not from a fresh value), its error dropped. */
  function HyperlinkStep<R>(h: Hyperlink<R>, toks: seq<Token>, k: nat, decodeRun: Decoder<R>): Hyperlink<R>
    requires k < |toks| && toks[k].Start?
  {
    if toks[k].tag.name.local == "r" then h.(run := decodeRun(h.run, toks[k].tag, Subtree(toks, k + 1)).0) else h
  }

  /** The token loop of Hyperlink.UnmarshalXML from cursor i; it fails only on a tokenizer
      failure. */
  function HyperlinkLoop<R>(h: Hyperlink<R>, toks: seq<Token>, i: nat, decodeRun: Decoder<R>): (Hyperlink<R>, Option<Error>)
    requires i <= |toks|
    decreases |toks| - i
  {
    match Pull(toks, i)
    case Eof => (h, None)
    case Fault(e) => (h, Some(e))
    case Got(t) =>
      if !t.Start? then HyperlinkLoop(h, toks, i + 1, decodeRun)
      else HyperlinkLoop(HyperlinkStep(h, toks, i, decodeRun), toks, Step(toks, i, RunDelegated), decodeRun)
  }

  /** Hyperlink.UnmarshalXML as written: it has no attribute loop, so the start tag is
      not consulted. */
  function HyperlinkSpec<R>(h0: Hyperlink<R>, start: Tag, toks: seq<Token>, decodeRun: Decoder<R>): (Hyperlink<R>, Option<Error>)
  {
    HyperlinkLoop(h0, toks, 0, decodeRun)
  }

  method DecodeHyperlink<R>(h0: Hyperlink<R>, start: Tag, toks: seq<Token>, decodeRun: Decoder<R>)
    returns (h: Hyperlink<R>, err: Option<Error>)
    ensures (h, err) == HyperlinkSpec(h0, start, toks, decodeRun)
  {
    h := h0;
    var i := 0;
    while true
      invariant i <= |toks|
      invariant HyperlinkLoop(h, toks, i, decodeRun) == HyperlinkLoop(h0, toks, 0, decodeRun)
      decreases |toks| - i
    {
      var q := Pull(toks, i);
      if q.Eof? {
        break;
      }
      if q.Fault? {
        return h, Some(q.err);
      }
      var t := q.tok;
      if t.Start? && t.tag.name.local == "r" {
        var decoded := decodeRun(h.run, t.tag, Subtree(toks, i + 1));
        h := h.(run := decoded.0);
        i := After(toks, i + 1);
      } else {
        i := i + 1;
      }
    }
    return h, None;
  }

  /** The hyperlink decode fails exactly at a tokenizer failure met by its own loop (a run
      that fails to decode does not make it fail), and it never changes the id. */
  lemma {:induction false} HyperlinkErrors<R>(h: Hyperlink<R>, toks: seq<Token>, i: nat, decodeRun: Decoder<R>)
    requires i <= |toks|
    ensures var (q, err) := HyperlinkLoop(h, toks, i, decodeRun);
      err == ScanError(toks, i, RunDelegated, NoCheck) && q.id == h.id
    decreases |toks| - i
  {
    match Pull(toks, i)
    case Eof =>
    case Fault(_) =>
    case Got(t) =>
      if !t.Start? {
        HyperlinkErrors(h, toks, i + 1, decodeRun);
      } else {
        HyperlinkErrors(HyperlinkStep(h, toks, i, decodeRun), toks, Step(toks, i, RunDelegated), decodeRun);
      }
  }

  /** Without an r child the run is unchanged; otherwise it is what the run decoder made
      of the LAST r child, decoding it over the run that the earlier r children left. */
  lemma {:induction false} HyperlinkRun<R(!new)>(h: Hyperlink<R>, toks: seq<Token>, i: nat, decodeRun: Decoder<R>)
    requires i <= |toks|
    ensures var q := HyperlinkLoop(h, toks, i, decodeRun).0;
      && (LastStart(toks, i, RunDelegated, "r").None? ==> q.run == h.run)
      && (LastStart(toks, i, RunDelegated, "r").Some? ==>
            var k := LastStart(toks, i, RunDelegated, "r").value;
            DecodedFrom(q.run, decodeRun, TagAt(toks, k), Subtree(toks, k + 1)))
    decreases |toks| - i
  {
    match Pull(toks, i)
    case Eof =>
    case Fault(_) =>
    case Got(t) =>
      if !t.Start? {
        HyperlinkRun(h, toks, i + 1, decodeRun);
      } else {
        var h' := HyperlinkStep(h, toks, i, decodeRun);
        var j := Step(toks, i, RunDelegated);
        HyperlinkRun(h', toks, j, decodeRun);
        assert HyperlinkLoop(h, toks, i, decodeRun) == HyperlinkLoop(h', toks, j, decodeRun);
        if IsStartNamed(t, "r") {
          assert h'.run == decodeRun(h.run, TagAt(toks, i), Subtree(toks, i + 1)).0;
        } else {
          assert h' == h;
        }
      }
  }

  /** Two r children are decoded one over the other into the same run. */
  lemma HyperlinkTwoRuns<R>(run0: R, decodeRun: Decoder<R>)
    ensures var link := Name("w", "hyperlink");
      var r := Name("w", "r");
      var first := decodeRun(run0, Tag(r, []), [End(r)]).0;
      HyperlinkLoop(Hyperlink("", run0), [Start(Tag(r, [])), End(r), Start(Tag(r, [])), End(r), End(link)], 0, decodeRun)
      == (Hyperlink("", decodeRun(first, Tag(r, []), [End(r)]).0), None)
  {
    var link := Name("w", "hyperlink");
    var r := Name("w", "r");
    var toks := [Start(Tag(r, [])), End(r), Start(Tag(r, [])), End(r), End(link)];
    assert After(toks, 1) == 2;
    assert After(toks, 3) == 4;
    assert Subtree(toks, 1) == [End(r)];
    assert Subtree(toks, 3) == [End(r)];
    var first := decodeRun(run0, Tag(r, []), [End(r)]).0;
    var last := Hyperlink("", decodeRun(first, Tag(r, []), [End(r)]).0);
    assert HyperlinkLoop(last, toks, 4, decodeRun) == (last, None);
    assert HyperlinkLoop(Hyperlink("", first), toks, 2, decodeRun) == (last, None);
  }

  /** As written, the decoder does not read r:id: a hyperlink whose start tag carries
      r:id="rId5" keeps an empty id. */
  lemma HyperlinkIdNotRead<R>(run0: R, decodeRun: Decoder<R>)
    ensures var link := Name("w", "hyperlink");
      var start := Tag(link, [Attr(Name("r", "id"), "rId5")]);
      HyperlinkSpec(Hyperlink("", run0), start, [End(link)], decodeRun) == (Hyperlink("", run0), None)
  {
  }

  /* ----- The decoder with its attribute loop, as the element's design calls for ----- */

  /** An attribute loop that copies the value of every attribute whose local name is id. */
  function IdAttrs<R>(h: Hyperlink<R>, attrs: seq<Attr>): Hyperlink<R>
    decreases |attrs|
  {
    if attrs == [] then h
    else IdAttrs(if attrs[0].name.local == "id" then h.(id := attrs[0].value) else h, attrs[1..])
  }

  /** Hyperlink.UnmarshalXML with an attribute loop reading r:id before the token loop. */
  function HyperlinkWithIdSpec<R>(h0: Hyperlink<R>, start: Tag, toks: seq<Token>, decodeRun: Decoder<R>): (Hyperlink<R>, Option<Error>)
  {
    HyperlinkLoop(IdAttrs(h0, start.attrs), toks, 0, decodeRun)
  }

  method DecodeHyperlinkWithId<R>(h0: Hyperlink<R>, start: Tag, toks: seq<Token>, decodeRun: Decoder<R>)
    returns (h: Hyperlink<R>, err: Option<Error>)
    ensures (h, err) == HyperlinkWithIdSpec(h0, start, toks, decodeRun)
  {
    h := h0;
    for k := 0 to |start.attrs|
      invariant IdAttrs(h, start.attrs[k..]) == IdAttrs(h0, start.attrs)
    {
      assert start.attrs[k..][1..] == start.attrs[k + 1..];
      if start.attrs[k].name.local == "id" {
        h := h.(id := start.attrs[k].value);
      }
    }
    h, err := DecodeHyperlink(h, start, toks, decodeRun);
  }

  /** The attribute loop leaves in id the value of the last id attribute (the id already
      held when there is none), and does not touch the run. */
  lemma {:induction false} IdAttrsMeaning<R>(h: Hyperlink<R>, attrs: seq<Attr>)
    ensures IdAttrs(h, attrs) == h.(id := TextSetting(attrs, "id", h.id))
    decreases |attrs|
  {
    if attrs != [] {
      IdAttrsMeaning(if attrs[0].name.local == "id" then h.(id := attrs[0].value) else h, attrs[1..]);
    }
  }

  /** With the attribute loop, the decoded id is the r:id of the hyperlink's start tag,
      whatever its content; a start tag carrying r:id="rId5" gives the id "rId5". */
  lemma HyperlinkIdRead<R>(h0: Hyperlink<R>, start: Tag, toks: seq<Token>, decodeRun: Decoder<R>)
    ensures HyperlinkWithIdSpec(h0, start, toks, decodeRun).0.id == TextSetting(start.attrs, "id", h0.id)
    ensures start.attrs == [Attr(Name("r", "id"), "rId5")] ==> HyperlinkWithIdSpec(h0, start, toks, decodeRun).0.id == "rId5"
  {
    IdAttrsMeaning(h0, start.attrs);
    HyperlinkErrors(IdAttrs(h0, start.attrs), toks, 0, decodeRun);
  }
}
