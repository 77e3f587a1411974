# Drawing and hyperlink decoders of a WordprocessingML reader

This project models the hand-written XML decoders that a Go library for `.docx` documents
uses for drawings and hyperlinks, and proves properties of them. Each `UnmarshalXML` method
of the drawing records (ECMA-376 Part 1, sections 20.4, 20.1 and 20.2) and of the hyperlink
(section 17.16.22) reads the attributes of its start element and then pulls tokens until the
end of its element. It dispatches child start tags by local name and fills fields on its
receiver, either in place or by delegating the child's subtree to another decoder.

The element's scoped token stream is a `seq<Token>` (module `Xml`): start tags with their
attributes, end tags, character data, and `Broken(msg)` for a tokenizer failure. Reading past
the end yields end-of-file, which is how Go's `encoding/xml` scopes a custom unmarshaler.

- A delegated child consumes its whole subtree (`Xml.After`).
- Any other start tag drops only itself. Its descendants therefore reach the parent loop.
- Every record is a datatype value. A receiver `*T` that is updated becomes a value `T` in and
  a value `T` out. A pointer field becomes an `Option`.
- Every decoder is a `method` with the source's loops, proved equal to a specification
  function: an attribute fold, then a token loop from a cursor `i`. The lemmas relate those
  functions to independent, declarative descriptions:
  - `Xml.ScanError`: the error a loop stops at.
  - `Xml.LastStart`: the last start tag of a given name that the loop handles.
  - `Xml.GetAtt`, `Xml.LastAttr` and `Xml.TextSetting`: attribute lookups.
  - `Strconv.Setting` and `Strconv.FirstMalformed`: the value stored for a numeric attribute,
    and the first malformed one.
  - `Strconv.IsDecimal` and `Strconv.DecimalValue`: what `strconv.ParseInt` accepts and
    returns.

Modules:

| module | file | contents |
|---|---|---|
| `Xml` | `xml.dfy` | tokens, the scoped cursor, attribute lookup, the loop descriptions |
| `Strconv` | `strconv.dfy` | Go's `strconv.ParseInt(s, 10, 64)` / `Atoi` and a decimal formatter |
| `FrameParts` | `frame_parts.dfy` | `WPExtent`, `WPEffectExtent`, `WPDocPr`, `WPCNvGraphicFramePr`, `WPPositionH`/`WPPositionV` |
| `Shape` | `shape.dfy` | `AXfrm`, `AAvLst`, `PICSpPr` |
| `Picture` | `picture.dfy` | `ABlip`, `PICBlipFill`, `PICNonVisualPicProperties`, `PICPic`, `AGraphicData`, `AGraphic` |
| `Frames` | `frames.dfy` | `WPInline`, `WPAnchor`, `Drawing` |
| `Link` | `link.dfy` | `Hyperlink` |

Calls into code outside these files are function parameters:

- `Decoder<T>` for the generic decodes of `posOffset` (`decodeInt`) and `prstGeom`
  (`decodeGeom`), and for the run of a hyperlink (`decodeRun`);
- `Marshal` for `xml.Marshal`.

## Model

| member | source | states |
|---|---|---|
| Strconv.ParseInt | structdrawing.go:76 | succeeds exactly on an optional sign followed by one or more ASCII digits whose value lies in the signed 64-bit range, returning that value; every failure is a syntax error or a range error on the input; a syntax error leaves 0, and a range error leaves the int64 bound on the sign's side; a well-formed decimal outside the int64 range is always a range error |
| Strconv.ParseIntErrorKind | structdrawing.go:76 | the error is a syntax error exactly when nothing follows the sign or a non-digit comes before the value overflows 64 bits; every other failure is a range error, including a non-digit met after an overflow |
| Strconv.ParseUintMeaning | structdrawing.go:174 | the unsigned digit scan inside the parser accepts exactly a non-empty digit string whose value fits in 64 bits, and returns that value |
| Strconv.ParseUintSyntax | structdrawing.go:174 | the unsigned digit scan reports a syntax error exactly on the empty string or on a non-digit met before the value overflows 64 bits; a non-digit after an overflow is a range error |
| Strconv.FormatIntRoundTrip | structdrawing.go:174 | parsing the decimal rendering of any int64 gives that value back without error |
| Strconv.FirstMalformed | structdrawing.go:73-98 | an attribute loop over the recognised numeric names reports an error exactly when one of them does not parse |
| Xml.GetAtt | structdrawing.go:113 | the looked-up value is that of the first attribute with the local name, and "" when there is none |
| FrameParts.DecodeExtent | structdrawing.go:169-191 | the decode parses cx and cy from the start tag, then reads exactly one more token, as specified by its attribute fold and one-token read |
| FrameParts.ExtentAttrsMeaning | structdrawing.go:171-184 | the attribute loop fails exactly at the first malformed cx or cy; each of cx and cy holds the last value given for it among the attributes read up to and including the failing one (a malformed value is stored before it is checked), or keeps its own; on success that is every attribute |
| FrameParts.ExtentDecode | structdrawing.go:169-191 | succeeds iff cx and cy are well formed and the next token is not a tokenizer failure; the error is the first malformed attribute's; on success and on failure cx and cy are what the attributes up to the failing one left; the result depends on one token only |
| FrameParts.ExtentRoundTrip | structdrawing.go:169-191 | an extent whose cx and cy are the decimal renderings of two int64 values decodes to exactly those values |
| FrameParts.ExtentRejectsText | structdrawing.go:173-177 | cx="abc" gives a syntax error and the extent stays zero |
| FrameParts.DecodeEffectExtent | structdrawing.go:202-234 | the effect-extent decode parses l, t, r and b, then reads one more token |
| FrameParts.EffectExtentAttrsError | structdrawing.go:204-227 | the attribute loop fails exactly at the first malformed l, t, r or b |
| FrameParts.EffectExtentAttrsMeaning | structdrawing.go:204-227 | each of l, t, r and b holds the last value given for it among the attributes read up to and including the first malformed one, or keeps its own; on success that is every attribute |
| FrameParts.EffectExtentDecode | structdrawing.go:202-234 | succeeds iff the four sides are well formed and the next token is not a failure; on success the four sides are as their attributes say, and on failure as the attributes up to the failing one left them |
| FrameParts.DecodeDocPr | structdrawing.go:243-265 | the docPr decode reads id (with Atoi) and name, then one more token |
| FrameParts.DocPrAttrsMeaning | structdrawing.go:244-258 | fails exactly at the first malformed id; id and name are the last values given among the attributes before that id (a malformed id is checked before it is stored), or unchanged; on success that is every attribute |
| FrameParts.DocPrDecode | structdrawing.go:243-265 | succeeds iff id is well formed and the next token is not a failure; on success id and name come from the last such attributes, and on failure from those before the malformed id |
| FrameParts.DecodeCNvGraphicFramePr | structdrawing.go:273-301 | the frame-properties decode runs its token loop |
| FrameParts.FramePrErrors | structdrawing.go:274-300 | the loop fails exactly at a tokenizer failure or at the first graphicFrameLocks whose noChangeAspect does not parse |
| FrameParts.FramePrLocks | structdrawing.go:286-293 | on success Locks holds the parsed noChangeAspect of the last graphicFrameLocks child, or is unchanged without one |
| FrameParts.FramePrMissingFlag | structdrawing.go:289-292 | a graphicFrameLocks without noChangeAspect is an error and Locks stays unset |
| FrameParts.DecodePosition | structdrawing.go:887-917 | the positionH (and identical positionV, lines 926-956) decode copies relativeFrom and runs its posOffset loop |
| FrameParts.PositionAttrsMeaning | structdrawing.go:888-893 | RelativeFrom is the last relativeFrom attribute's text, or unchanged |
| FrameParts.PositionOffset | structdrawing.go:894-916 | relativeFrom is never changed by the loop; on success PosOffset is what the integer decode made of the last posOffset child, or unchanged without one |
| FrameParts.PositionOffsetError | structdrawing.go:906-910 | a posOffset whose decode fails stops the position decode with that very error |
| FrameParts.PositionExample | structdrawing.go:887-917 | a positionH with relativeFrom="column" and posOffset 914400 decodes to exactly those |
| Shape.XfrmStep | structdrawing.go:643-660 | reading an off or ext child changes only Off or Ext, and only the one named by the tag |
| Shape.DecodeXfrm | structdrawing.go:609-668 | the xfrm decode runs its attribute loop and then its token loop |
| Shape.XfrmAttrsError | structdrawing.go:610-630 | the attribute loop fails exactly at the first malformed rot, flipH or flipV, and never touches Off or Ext |
| Shape.XfrmAttrsMeaning | structdrawing.go:610-630 | rot, flipH and flipV hold the last values given among the attributes read up to and including the first malformed one (stored before it is checked), or keep theirs; on success that is every attribute |
| Shape.XfrmErrors | structdrawing.go:631-667 | the token loop fails exactly at a tokenizer failure or at the first off/ext whose coordinates do not parse |
| Shape.XfrmKeepsRotation | structdrawing.go:631-667 | the token loop changes only Off and Ext |
| Shape.XfrmOffPlacement | structdrawing.go:643-651 | on success Off holds the parsed x and y of the last off child, or is unchanged without one |
| Shape.XfrmExtPlacement | structdrawing.go:652-660 | on success Ext holds the parsed cx and cy of the last ext child, or is unchanged without one |
| Shape.XfrmDecode | structdrawing.go:609-668 | a malformed rotation or flip attribute is reported first, and leaves the record as the attributes up to it made it with Off and Ext untouched; otherwise the error is the token loop's, and rot, flipH and flipV are the attributes' values |
| Shape.XfrmOffPartial | structdrawing.go:644-647 | a malformed x stops the decode before y is read: X is 0 and Y keeps its old value |
| Shape.DecodeAvLst | structdrawing.go:701-732 | the avLst decode marshals the start element, then appends each token it reads in its loop |
| Shape.AvLstStop | structdrawing.go:708-719 | the capture stops at the first tokenizer failure or end tag equal to the start's end, or at the scope end, and at nothing before it |
| Shape.SerializedSnoc | structdrawing.go:721-726 | serializing one more token appends its marshalled text, or keeps the first marshal error |
| Shape.AvLstLoopMeaning | structdrawing.go:708-727 | the loop with a prefix already captured behaves as the loop that captured that prefix itself |
| Shape.SerializedErrorSticks | structdrawing.go:721-724 | once a token fails to marshal, every longer capture fails with that same error |
| Shape.AvLstContent | structdrawing.go:701-732 | RawXML is the marshalled start followed by every token before the stop; the decode fails exactly on a marshal error or a tokenizer failure, and then leaves RawXML unchanged |
| Shape.AvLstNestedSameName | structdrawing.go:717-719 | a nested element with the same name as avLst ends the capture early |
| Shape.DecodeSpPr | structdrawing.go:571-596 | the spPr decode runs its token loop |
| Shape.SpPrChildren | structdrawing.go:572-595 | fails only on a tokenizer failure; Prst is the prst attribute of the last prstGeom, whatever the geometry decode did; Xfrm is unchanged without an xfrm child, and otherwise is what the decode of the last xfrm child yields from some incoming value, its error dropped; rot, flipH and flipV chain over all the xfrm children in order |
| Shape.SpPrXfrmChain | structdrawing.go:584-585 | each xfrm child is decoded over the transform the earlier ones left: rot, flipH and flipV hold the last values given among the attributes all the xfrm children store, in document order, or are unchanged |
| Shape.SpPrTwoTransforms | structdrawing.go:584-585 | a first xfrm with rot and a second with flipH give a transform with both: the second decode starts from the first one's result |
| Picture.DecodeBlip | structdrawing.go:508-545 | the blip decode runs its attribute loop and then its token loop |
| Picture.BlipAttrsMeaning | structdrawing.go:509-518 | Embed and Cstate are the last embed and cstate attributes' text, or unchanged |
| Picture.BlipChildren | structdrawing.go:519-544 | fails exactly at a tokenizer failure or the first alphaModFix with a malformed amt; never touches Embed or Cstate; AlphaModFix holds the amt of the last alphaModFix read before the loop stops (the failing one is not stored), or is unchanged; on success that is the last alphaModFix |
| Picture.BlipDecode | structdrawing.go:508-545 | Embed and Cstate come from the attributes whatever happens later, and the decode fails exactly as its token loop does |
| Picture.BlipMissingAmount | structdrawing.go:531-537 | an alphaModFix without amt is an error and AlphaModFix stays unset |
| Picture.DecodeBlipFill | structdrawing.go:474-498 | the blipFill decode runs its token loop |
| Picture.BlipFillChildren | structdrawing.go:475-497 | fails only on a tokenizer failure; the Blip is unchanged without a blip child, and otherwise is what the decode of the last blip child yields from some incoming value, its error dropped; that child's embed and cstate, when present, are the ones kept; embed and cstate chain over all the blip children in order |
| Picture.BlipFillErrors | structdrawing.go:475-497 | the loop fails only on a tokenizer failure: a blip child's error is dropped |
| Picture.BlipDecodedKeeps | structdrawing.go:508-518 | whatever value a blip is decoded over, the embed and cstate its start tag carries are the ones it ends with |
| Picture.BlipFillChain | structdrawing.go:487-488 | each blip child is decoded over the blip the earlier ones left: embed and cstate are the last such attributes over all the blip children, in document order, or unchanged |
| Picture.BlipFillTwoBlips | structdrawing.go:487-488 | a first blip with embed and a second with cstate give a blip with both: the second decode starts from the first one's result |
| Picture.DecodeNvPicPr | structdrawing.go:435-458 | the nvPicPr decode runs its token loop |
| Picture.NvPicPrChildren | structdrawing.go:436-457 | fails only on a tokenizer failure; id and name both come from the last cNvPr tag ("" when absent), or are unchanged without one |
| Picture.DecodePic | structdrawing.go:394-426 | the pic decode runs its token loop |
| Picture.PicErrors | structdrawing.go:395-425 | fails only on a tokenizer failure (child errors are dropped) and never changes XMLPIC |
| Picture.PicNvPicPr | structdrawing.go:407-410 | NonVisualPicProperties is the fresh decode of the last nvPicPr child, or unchanged |
| Picture.PicBlipFill | structdrawing.go:411-414 | BlipFill is the fresh decode of the last blipFill child, or unchanged |
| Picture.PicSpPr | structdrawing.go:415-418 | SpPr is the fresh decode of the last spPr child, or unchanged |
| Picture.DecodeGraphicData | structdrawing.go:358-383 | the graphicData decode runs its token loop |
| Picture.GraphicDataChildren | structdrawing.go:359-382 | fails only on a tokenizer failure and keeps URI; Pic is the fresh decode of the last pic child with XMLPIC then set from that child's pic attribute |
| Picture.DecodeGraphic | structdrawing.go:316-349 | the graphic decode runs its attribute loop and then its token loop |
| Picture.GraphicAttrsMeaning | structdrawing.go:317-324 | XMLA is the last "a" attribute's text, or unchanged |
| Picture.GraphicChildren | structdrawing.go:325-348 | fails only on a tokenizer failure and keeps XMLA; GraphicData is the fresh decode of the last graphicData child, or unchanged |
| Picture.GraphicDecode | structdrawing.go:316-349 | the whole graphic decode: XMLA from the attributes, only tokenizer errors, and the graphic data's URI is its own start tag's uri attribute |
| Frames.ReadExtent | structdrawing.go:111-120 | an inline's extent is read in place from the child's own attributes, cx then cy, each stored before it is checked |
| Frames.ReadEffectExtent | structdrawing.go:121-138 | an inline's effectExtent is read in place, l, t, r, b in that order, stopping at the first malformed one |
| Frames.ReadSimplePos | structdrawing.go:827-836 | an anchor's simplePos is read in place, x then y |
| Frames.DecodeInlineAttrs | structdrawing.go:73-98 | the inline's attribute loop, one attribute at a time |
| Frames.DecodeInlineChild | structdrawing.go:110-152 | handling one child start tag gives the record after that child and the error it raises, if any |
| Frames.DecodeInlineChildren | structdrawing.go:99-155 | the inline's token loop |
| Frames.DecodeInline | structdrawing.go:72-158 | the whole inline decode: attribute loop, then token loop from the resulting record |
| Frames.InlineAttrsError | structdrawing.go:73-98 | the attribute loop fails exactly at the first malformed distT, distB, distL or distR |
| Frames.InlineAttrsMeaning | structdrawing.go:73-98 | each distance holds the last value given for it among the attributes read up to and including the first malformed one, or keeps its own; on success that is every attribute; nothing else changes |
| Frames.InlineErrors | structdrawing.go:99-155 | the token loop fails exactly at a tokenizer failure or the first extent/effectExtent with a malformed coordinate, and never changes the distances |
| Frames.InlineInPlace | structdrawing.go:111-138 | on success Extent and EffectExtent are the in-place reads of the last such children, or unchanged without one |
| Frames.InlineDelegates | structdrawing.go:139-149 | on success DocPr, CNvGraphicFramePr and Graphic are the fresh decodes of the last such children, their errors dropped |
| Frames.InlineExtentRequired | structdrawing.go:111-116 | an inline whose extent has no cx fails, and Extent is left set to a zero extent |
| Frames.AnchorStep | structdrawing.go:824-868 | a child start tag never changes the ten numeric attributes of the anchor |
| Frames.DecodeAnchorAttrs | structdrawing.go:761-814 | the anchor's attribute loop, one attribute at a time |
| Frames.DecodeAnchorChild | structdrawing.go:826-867 | handling one child start tag gives the record after that child and the error it raises, if any |
| Frames.DecodeAnchorChildren | structdrawing.go:815-869 | the anchor's token loop |
| Frames.DecodeAnchor | structdrawing.go:760-871 | the whole anchor decode: attribute loop, then token loop |
| Frames.AnchorAttrsError | structdrawing.go:761-814 | the attribute loop fails exactly at the first malformed one of the ten numeric attributes |
| Frames.AnchorAttrsMeaning | structdrawing.go:761-814 | the attribute loop changes nothing but the ten numbers; each holds the last value given for it among the attributes read up to and including the first malformed one, or keeps its own; on success that is every attribute |
| Frames.AnchorErrors | structdrawing.go:815-869 | the token loop fails exactly at a tokenizer failure or the first simplePos with a malformed coordinate |
| Frames.AnchorNumbersKept | structdrawing.go:815-869 | the token loop never changes the ten numeric attributes |
| Frames.AnchorInPlace | structdrawing.go:827-855 | on success WrapNone is set iff it was or a wrapNone child came; WrapSquare holds the last wrapSquare's wrapText; SimplePosXY the last simplePos's in-place read |
| Frames.AnchorPlacement | structdrawing.go:837-844 | on success PositionH and PositionV are the fresh decodes of the last such children, or unchanged |
| Frames.AnchorExtents | structdrawing.go:845-850 | on success Extent and EffectExtent are full delegated decodes of the last such children, their errors dropped |
| Frames.AnchorFrame | structdrawing.go:856-861 | on success DocPr and CNvGraphicFramePr are the fresh decodes of the last such children, or unchanged |
| Frames.AnchorGraphic | structdrawing.go:862-864 | on success Graphic is the fresh decode of the last graphic child, or unchanged |
| Frames.AnchorAttrsFrom | structdrawing.go:761-814 | attributes carrying the decimal renderings of ten int64 values, in order, are all accepted and stored |
| Frames.AnchorExtentOnly | structdrawing.go:845-847 | a token loop over one well-formed extent child sets Extent to its values and nothing else |
| Frames.AnchorRoundTrip | structdrawing.go:760-871 | an anchor with ten rendered numbers and one extent decodes to exactly those numbers and that extent, every other field at its zero value |
| Frames.AnchorToleratesBadExtent | structdrawing.go:845-847 | an anchor whose extent has cx="abc" still decodes without error, keeping a zero extent |
| Frames.AnchorBothWraps | structdrawing.go:851-855 | wrapNone and a wrapSquare nested in an unknown element are both recorded: nothing makes them exclusive |
| Frames.DecodeDrawing | structdrawing.go:26-53 | the drawing decode runs its token loop |
| Frames.DrawingChildren | structdrawing.go:27-50 | fails only on a tokenizer failure; Inline and Anchor are the fresh decodes of the last such children, or unchanged |
| Frames.DrawingBoth | structdrawing.go:38-47 | a drawing with both an inline and an anchor child gets both |
| Link.DecodeHyperlink | structlink.go:15-37 | the hyperlink decode runs its token loop, never looking at the start tag |
| Link.HyperlinkErrors | structlink.go:16-34 | fails only on a tokenizer failure (a run that fails to decode does not make it fail) and never changes ID |
| Link.HyperlinkRun | structlink.go:26-31 | without an r child the run is unchanged; otherwise it is what the run decoder made of the last r child |
| Link.HyperlinkTwoRuns | structlink.go:27-28 | a second r child is decoded over the run the first one left: there is one run, not a list |
| Link.HyperlinkIdNotRead | structlink.go:15-37 | as written, a hyperlink with r:id="rId5" keeps an empty ID |
| Link.DecodeHyperlinkWithId | structlink.go:9-13 | the corrected decode reads r:id in an attribute loop before the token loop |
| Link.IdAttrsMeaning | structlink.go:11 | the corrected attribute loop leaves in ID the last id attribute's text and does not touch the run |
| Link.HyperlinkIdRead | structlink.go:9-13 | with the correction, ID is the hyperlink's r:id; r:id="rId5" gives "rId5" |

## Left out

- The `encoding/xml` tokenizer and namespace translation. Input is the already-scoped token
  sequence. Names compare by local name, as the code does, and a failure is a `Broken`
  token.
- The generic struct-tag decodes. Those of `posOffset` and `prstGeom` are parameters.
  `graphicFrameLocks` and `stretch` have no observable effect (the parent overwrites the
  only field, or there is none), so their subtree is only skipped.
- `AStretch`, `AFillRect` and `CNvPicPr` are not modelled because the decoders never fill
  them. `XMLName` fields are not modelled either.
- The unused constants `A4_EMU_MAX_WIDTH` and the namespace strings are not modelled, and
  neither is marshalling through struct tags.
- The byte output of `xml.Marshal` is an uninterpreted parameter. No byte-exact round trip
  is claimed. `BytesToString` is the identity.
- `getAtt` is not part of this model. `Xml.GetAtt` assumes a first-match lookup by local
  name that returns "" when the name is absent.
- The `Run` record and its decoder are not part of this model. The hyperlink takes a run
  type and a run decoder as parameters.
- The cursor after a delegated child that fails: the model assumes that the child's subtree
  is consumed, and the parent loop goes on to the child's later siblings. encoding/xml does
  otherwise when a custom child decoder returns an error before reading its own end tag.
  The EOF marker it pushed below the child's start entry then stays on the stack. The parent
  reads the rest of the child's tokens and its end tag, and its next `d.Token()` returns
  io.EOF, so the parent returns success right after that child. The parent's later children
  then reach the grandparent's loop. The model does not capture this: it decodes those later
  children in the parent. The "did not consume the entire element" error of the generic
  decoder is never visible, because every call site drops child errors. The same happens
  when a child decoder succeeds without reaching its end tag. `WPExtent`, `WPEffectExtent`
  and `WPDocPr` read exactly one token after their attributes and return nil (lines 169-191,
  202-234 and 243-265). An extent or docPr with any content, such as a docPr holding an
  `a:hlinkClick` or only whitespace, therefore leaves the marker in place too, and the
  parent stops right after that child.
- Go's `int` is modelled as int64, as on a 64-bit platform, and `Atoi` as `ParseInt`.
- Pointers become values. Every pointer field refers to a fresh record that the parent owns
  alone, so there is no aliasing to lose.
- Where the code and the documented design of these elements differ, the model follows the
  code:
  - an unknown child element is not skipped, so its descendants reach the parent loop;
  - inline and anchor, and wrapNone and wrapSquare, are not exclusive;
  - delegated child errors are dropped;
  - an inline's extent is parsed strictly in place, while an anchor's is delegated and
    tolerated.
- Frames.InlineInPlace: describes the record only when the loop succeeds. On a failure the
  partly filled record is shown by example (Frames.InlineExtentRequired) only.
- Frames.InlineDelegates: describes the record only when the loop succeeds.
- Frames.AnchorInPlace: describes the record only when the loop succeeds.
- Frames.AnchorPlacement: describes the record only when the loop succeeds.
- Frames.AnchorExtents: describes the record only when the loop succeeds.
- Frames.AnchorFrame: describes the record only when the loop succeeds.
- Frames.AnchorGraphic: describes the record only when the loop succeeds.
- Shape.XfrmOffPlacement: describes Off only on success. A partial read is shown by
  example (Shape.XfrmOffPartial).
- Shape.XfrmExtPlacement: describes Ext only on success.
- FrameParts.FramePrLocks: describes Locks only on success.
- Link.HyperlinkRun: says that the final run is the run decoder's output for the last r
  child, but not which earlier run it was decoded over. Link.HyperlinkTwoRuns shows the
  chaining.
- FrameParts.PositionOffset: the same weakening applies to PosOffset and the last posOffset
  child.
- Picture.BlipFillChildren: embed and cstate are stated across all the blip children
  (Picture.BlipFillChain). AlphaModFix is stated only as what the last blip child's decode
  yields from some incoming value, not which one. Picture.BlipFillTwoBlips shows the
  chaining on an example.
- Shape.SpPrChildren: rot, flipH and flipV are stated across all the xfrm children
  (Shape.SpPrXfrmChain). Off and Ext are stated only as what the last xfrm child's decode
  yields from some incoming value, not which one. Shape.SpPrTwoTransforms shows the
  chaining on an example.

## Findings

| source | as written | input that shows it | evidently intended | confidence | as-written member | corrected member |
|---|---|---|---|---|---|---|
| structlink.go:15-37 | the custom decoder never reads the start element's attributes, so the r:id the record declares (line 11) is never filled | `<w:hyperlink r:id="rId5">` with any content | ID = "rId5", as the field's `r:id,attr` tag declares | not executed; high | Link.HyperlinkIdNotRead | Link.HyperlinkIdRead |
