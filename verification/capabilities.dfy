/**
 * The scanner's capability document and the rules that read it: every field is
 * found by an exactly-one lookup of a scan-namespace element below the document
 * element; numbers are read with `Integer.parseInt`; the list fields are the
 * texts of a container's element children; the two defaults follow different
 * rules (first marked colour mode, last marked resolution).
 */
module Capabilities {
  import opened Wrappers
  import opened Numbers
  import opened Dom
  import opened ScanNamespaceContext

  /** The `IOException`s that `parse` raises, by cause. */
  datatype CapError =
    | WrongCount(count: nat, ns: string, tag: string)  // "Found %d instances for %s:%s"
    | NumberFormat(text: string)                      // a wrapped NumberFormatException
    | NotWellFormed                                   // a wrapped SAXException (or a failed read)

  /** `Math.min`. */
  function Min(a: int, b: int): (m: int)
    ensures m <= a && m <= b && (m == a || m == b)
  {
    if a <= b then a else b
  }

  /** A single match is a descendant with that name, and every such descendant is it. */
  lemma {:induction false} SingleMatchIsUnique(n: Node, ns: string, tag: string)
    requires |Matches(n, ns, tag)| == 1
    ensures Below(Matches(n, ns, tag)[0], n) && IsTag(Matches(n, ns, tag)[0], ns, tag)
    ensures forall d :: Below(d, n) && IsTag(d, ns, tag) ==> d == Matches(n, ns, tag)[0]
  {
    MatchesAreDescendants(n, ns, tag, Matches(n, ns, tag)[0]);
    forall d | Below(d, n) && IsTag(d, ns, tag)
      ensures d == Matches(n, ns, tag)[0]
    {
      MatchesAreDescendants(n, ns, tag, d);
    }
  }

  /** `getSingleElement`: the descendant with this namespace and local name, if it is the only one. */
  function SingleElement(n: Node, ns: string, tag: string): (r: Result<Node, CapError>)
    ensures r.Ok? ==> IsTag(r.value, ns, tag)
  {
    var found := Matches(n, ns, tag);
    if |found| != 1 then Err(WrongCount(|found|, ns, tag)) else Ok(found[0])
  }

  /**
   * The lookup succeeds exactly when one descendant of `n` (never `n` itself)
   * has this namespace and local name, and then returns that one; zero or
   * several such descendants are an error that reports their number.
   */
  lemma SingleElementIsTheOnlyMatch(n: Node, ns: string, tag: string)
    ensures SingleElement(n, ns, tag).Ok? <==> |Matches(n, ns, tag)| == 1
    ensures SingleElement(n, ns, tag).Ok? ==>
      var e := SingleElement(n, ns, tag).value;
      && Below(e, n) && IsTag(e, ns, tag)
      && forall d :: Below(d, n) && IsTag(d, ns, tag) ==> d == e
    ensures SingleElement(n, ns, tag).Err? ==>
      SingleElement(n, ns, tag).error == WrongCount(|Matches(n, ns, tag)|, ns, tag)
  {
    if |Matches(n, ns, tag)| == 1 {
      SingleMatchIsUnique(n, ns, tag);
    }
  }

  /** `getIntegerFromDocument`: the text of the single element, read by `Integer.parseInt`. */
  function IntegerFromDocument(n: Node, ns: string, tag: string): (r: Result<int, CapError>)
    ensures r.Ok? ==> IsInt32(r.value)
    ensures r.Ok? ==> SingleElement(n, ns, tag).Ok? && ParseInt(TextContent(SingleElement(n, ns, tag).value)) == Some(r.value)
    ensures SingleElement(n, ns, tag).Err? ==> r == Err(SingleElement(n, ns, tag).error)
    ensures SingleElement(n, ns, tag).Ok? ==>
      var text := TextContent(SingleElement(n, ns, tag).value);
      && (r.Ok? <==> ParseInt(text).Some?)
      && (ParseInt(text).None? ==> r == Err(NumberFormat(text)))
  {
    match SingleElement(n, ns, tag)
    case Err(e) => Err(e)
    case Ok(e) =>
      match ParseInt(TextContent(e))
      case None => Err(NumberFormat(TextContent(e)))
      case Some(v) => Ok(v)
  }

  /** The texts of the element children of `cs`, one per element child, in document order. */
  function ChildTexts(cs: seq<Node>): (ts: seq<string>)
    ensures |ts| == |ElementChildren(cs)|
    ensures forall k :: 0 <= k < |ts| ==> ts[k] == TextContent(ElementChildren(cs)[k])
  {
    if cs == [] then []
    else
      var last := cs[|cs| - 1];
      ChildTexts(cs[..|cs| - 1]) + if last.Element? then [TextContent(last)] else []
  }

  /** What `getChildElementsContent` computes. */
  function ContainerTexts(n: Node, ns: string, tag: string): Result<seq<string>, CapError> {
    match SingleElement(n, ns, tag)
    case Err(e) => Err(e)
    case Ok(c) => Ok(ChildTexts(c.children))
  }

  /** `getChildElementsContent`: collect the text of each element child of the single container. */
  method GetChildElementsContent(n: Node, ns: string, tag: string) returns (r: Result<seq<string>, CapError>)
    ensures r == ContainerTexts(n, ns, tag)
  {
    var container := SingleElement(n, ns, tag);
    if container.Err? {
      return Err(container.error);
    }
    var nl := container.value.children;
    var result: seq<string> := [];
    var i := 0;
    while i < |nl|
      invariant 0 <= i <= |nl|
      invariant result == ChildTexts(nl[..i])
    {
      assert nl[..i + 1][..i] == nl[..i];
      if nl[i].Element? {
        result := result + [TextContent(nl[i])];
      }
      i := i + 1;
    }
    assert nl[..i] == nl;
    return Ok(result);
  }

  /** The element carries the scan-namespace attribute `default` with value "true", in any case. */
  predicate MarkedDefault(n: Node) {
    n.Element? && IsTrueIgnoringCase(AttributeNS(n, NS_SCAN, "default"))
  }

  /** The text of the first marked element child, if there is one. */
  function FirstDefault(cs: seq<Node>): (r: Option<string>)
    ensures r.None? <==> forall i :: 0 <= i < |cs| ==> !MarkedDefault(cs[i])
  {
    if cs == [] then None
    else if MarkedDefault(cs[0]) then Some(TextContent(cs[0]))
    else
      assert forall i :: 1 <= i < |cs| ==> cs[i] == cs[1..][i - 1];
      FirstDefault(cs[1..])
  }

  /** For colour modes the first marked entry wins: later marked entries are ignored. */
  lemma {:induction false} FirstDefaultWins(cs: seq<Node>, i: nat)
    requires i < |cs| && MarkedDefault(cs[i])
    requires forall j :: 0 <= j < i ==> !MarkedDefault(cs[j])
    ensures FirstDefault(cs) == Some(TextContent(cs[i]))
  {
    if i > 0 {
      assert forall j :: 0 <= j < i - 1 ==> cs[1..][j] == cs[j + 1];
      FirstDefaultWins(cs[1..], i - 1);
    }
  }

  /** The default found is the text of some marked child. */
  lemma {:induction false} FirstDefaultIsMarked(cs: seq<Node>)
    requires FirstDefault(cs).Some?
    ensures exists i :: 0 <= i < |cs| && MarkedDefault(cs[i]) && FirstDefault(cs).value == TextContent(cs[i])
  {
    if !MarkedDefault(cs[0]) {
      FirstDefaultIsMarked(cs[1..]);
      var i :| 0 <= i < |cs[1..]| && MarkedDefault(cs[1..][i]) && FirstDefault(cs[1..]).value == TextContent(cs[1..][i]);
      assert cs[i + 1] == cs[1..][i];
    }
  }

  /** The default read from a container is one of the texts read from the same container. */
  lemma DefaultIsListed(cs: seq<Node>)
    requires FirstDefault(cs).Some?
    ensures FirstDefault(cs).value in ChildTexts(cs)
  {
    FirstDefaultIsMarked(cs);
    var i :| 0 <= i < |cs| && MarkedDefault(cs[i]) && FirstDefault(cs).value == TextContent(cs[i]);
    ElementIsListed(cs, i);
    var es := ElementChildren(cs);
    var k :| 0 <= k < |es| && es[k] == cs[i];
    assert ChildTexts(cs)[k] == TextContent(cs[i]);
  }

  /** What `getChildElementsDefault` computes. */
  function ContainerDefault(n: Node, ns: string, tag: string): Result<Option<string>, CapError> {
    match SingleElement(n, ns, tag)
    case Err(e) => Err(e)
    case Ok(c) => Ok(FirstDefault(c.children))
  }

  /** `getChildElementsDefault`: return the text of the first marked element child, or `null`. */
  method GetChildElementsDefault(n: Node, ns: string, tag: string) returns (r: Result<Option<string>, CapError>)
    ensures r == ContainerDefault(n, ns, tag)
  {
    var container := SingleElement(n, ns, tag);
    if container.Err? {
      return Err(container.error);
    }
    var nl := container.value.children;
    var i := 0;
    while i < |nl|
      invariant 0 <= i <= |nl|
      invariant FirstDefault(nl[i..]) == FirstDefault(nl)
    {
      assert nl[i..][1..] == nl[i + 1..];
      if nl[i].Element? && IsTrueIgnoringCase(AttributeNS(nl[i], NS_SCAN, "default")) {
        return Ok(Some(TextContent(nl[i])));
      }
      i := i + 1;
    }
    return Ok(None);
  }

  // ---------------------------------------------------------------------------
  // Discrete resolutions.

  /** One discrete resolution: `min(xres, yres)`, and whether the entry or its X or Y element is marked. */
  datatype Resolution = Resolution(value: int, marked: bool)

  /**
   * Read one element child of DiscreteResolutions: its single XResolution and
   * its single YResolution are looked up and their texts parsed, in that
   * order, and the first step that fails gives the error. The value is the
   * smaller of the two numbers, and the entry is marked when the entry or
   * either of the two elements carries the default attribute.
   */
  function ResolutionEntry(e: Node): (r: Result<Resolution, CapError>)
    requires e.Element?
    ensures var xl := SingleElement(e, NS_SCAN, "XResolution");
      var yl := SingleElement(e, NS_SCAN, "YResolution");
      && (xl.Err? ==> r == Err(xl.error))
      && (xl.Ok? && yl.Err? ==> r == Err(yl.error))
      && (xl.Ok? && yl.Ok? ==>
            var xt := TextContent(xl.value);
            var yt := TextContent(yl.value);
            && (ParseInt(xt).None? ==> r == Err(NumberFormat(xt)))
            && (ParseInt(xt).Some? && ParseInt(yt).None? ==> r == Err(NumberFormat(yt)))
            && (r.Ok? <==> ParseInt(xt).Some? && ParseInt(yt).Some?)
            && (r.Ok? ==>
                  var x := ParseInt(xt).value;
                  var y := ParseInt(yt).value;
                  && r.value.value <= x && r.value.value <= y
                  && (r.value.value == x || r.value.value == y)
                  && (r.value.marked <==> MarkedDefault(e) || MarkedDefault(xl.value) || MarkedDefault(yl.value))))
    ensures r.Ok? ==> IsInt32(r.value.value)
  {
    match SingleElement(e, NS_SCAN, "XResolution")
    case Err(err) => Err(err)
    case Ok(xresEl) =>
      match SingleElement(e, NS_SCAN, "YResolution")
      case Err(err) => Err(err)
      case Ok(yresEl) =>
        match ParseInt(TextContent(xresEl))
        case None => Err(NumberFormat(TextContent(xresEl)))
        case Some(xres) =>
          match ParseInt(TextContent(yresEl))
          case None => Err(NumberFormat(TextContent(yresEl)))
          case Some(yres) =>
            Ok(Resolution(Min(xres, yres), MarkedDefault(e) || MarkedDefault(xresEl) || MarkedDefault(yresEl)))
  }

  /** An element child of DiscreteResolutions that reads and is marked as the default. */
  predicate EntryMarked(n: Node) {
    n.Element? && ResolutionEntry(n).Ok? && ResolutionEntry(n).value.marked
  }

  /**
   * The state of the loop over the DiscreteResolutions children: the values
   * collected, the default resolution field, and the error that ended the loop.
   */
  datatype ResolutionScan = ResolutionScan(values: seq<int>, dflt: Option<int>, error: Option<CapError>)

  /** The loop over the children `cs`, starting from default `dflt`. */
  function ScanResolutions(cs: seq<Node>, dflt: Option<int>): ResolutionScan {
    if cs == [] then ResolutionScan([], dflt, None)
    else
      var prev := ScanResolutions(cs[..|cs| - 1], dflt);
      var n := cs[|cs| - 1];
      if prev.error.Some? || !n.Element? then prev
      else
        match ResolutionEntry(n)
        case Err(e) => prev.(error := Some(e))
        case Ok(res) => ResolutionScan(prev.values + [res.value], if res.marked then Some(res.value) else prev.dflt, None)
  }

  /** One more child that is not an element leaves the loop's state as it was. */
  lemma ScanSkipsNonElement(cs: seq<Node>, i: nat, dflt: Option<int>, sofar: ResolutionScan)
    requires i < |cs| && !cs[i].Element?
    requires ScanResolutions(cs[..i], dflt) == sofar
    ensures ScanResolutions(cs[..i + 1], dflt) == sofar
  {
    assert cs[..i + 1][..i] == cs[..i];
  }

  /** One more entry that reads adds its value and, when it is marked, becomes the default. */
  lemma ScanAddsEntry(cs: seq<Node>, i: nat, dflt: Option<int>, res: Resolution,
                      values: seq<int>, d: Option<int>)
    requires i < |cs| && cs[i].Element? && ResolutionEntry(cs[i]) == Ok(res)
    requires ScanResolutions(cs[..i], dflt) == ResolutionScan(values, d, None)
    ensures ScanResolutions(cs[..i + 1], dflt)
      == ResolutionScan(values + [res.value], if res.marked then Some(res.value) else d, None)
  {
    assert cs[..i + 1][..i] == cs[..i];
  }

  /** An entry that fails ends the loop with its error; the later children are not looked at. */
  lemma ScanStopsAt(cs: seq<Node>, i: nat, dflt: Option<int>, values: seq<int>, d: Option<int>, e: CapError)
    requires i < |cs| && cs[i].Element? && ResolutionEntry(cs[i]) == Err(e)
    requires ScanResolutions(cs[..i], dflt) == ResolutionScan(values, d, None)
    ensures ScanResolutions(cs, dflt) == ResolutionScan(values, d, Some(e))
  {
    assert cs[..i + 1][..i] == cs[..i];
    ScanErrorSticks(cs, i + 1, dflt);
  }

  /** Once an entry has failed, the later children are not looked at. */
  lemma {:induction false} ScanErrorSticks(cs: seq<Node>, k: nat, dflt: Option<int>)
    requires k <= |cs| && ScanResolutions(cs[..k], dflt).error.Some?
    ensures ScanResolutions(cs, dflt) == ScanResolutions(cs[..k], dflt)
    decreases |cs| - k
  {
    if k < |cs| {
      assert cs[..k + 1][..k] == cs[..k];
      ScanErrorSticks(cs, k + 1, dflt);
    } else {
      assert cs[..k] == cs;
    }
  }

  /** The values and the error do not depend on the default the loop starts from. */
  lemma {:induction false} ScanIgnoresStartDefault(cs: seq<Node>, d1: Option<int>, d2: Option<int>)
    ensures ScanResolutions(cs, d1).values == ScanResolutions(cs, d2).values
    ensures ScanResolutions(cs, d1).error == ScanResolutions(cs, d2).error
  {
    if cs != [] {
      ScanIgnoresStartDefault(cs[..|cs| - 1], d1, d2);
    }
  }

  /**
   * `resolutions` gets one entry per element child, in document order, each
   * the minimum of that entry's X and Y resolution; non-element children are skipped.
   */
  lemma {:induction false} ScanValuesPerEntry(cs: seq<Node>, dflt: Option<int>)
    requires ScanResolutions(cs, dflt).error.None?
    ensures |ScanResolutions(cs, dflt).values| == |ElementChildren(cs)|
    ensures forall k :: 0 <= k < |ElementChildren(cs)| ==>
      ResolutionEntry(ElementChildren(cs)[k]).Ok? &&
      ScanResolutions(cs, dflt).values[k] == ResolutionEntry(ElementChildren(cs)[k]).value.value
  {
    if cs != [] {
      ScanValuesPerEntry(cs[..|cs| - 1], dflt);
    }
  }

  /** With no marked entry, the default resolution is left as it was: `parse` never clears it. */
  lemma {:induction false} ScanKeepsUnmarkedDefault(cs: seq<Node>, dflt: Option<int>)
    requires ScanResolutions(cs, dflt).error.None?
    requires forall i :: 0 <= i < |cs| ==> !EntryMarked(cs[i])
    ensures ScanResolutions(cs, dflt).dflt == dflt
  {
    if cs != [] {
      var init := cs[..|cs| - 1];
      assert ScanResolutions(init, dflt).error.None?;
      assert forall i :: 0 <= i < |init| ==> init[i] == cs[i];
      ScanKeepsUnmarkedDefault(init, dflt);
    }
  }

  /** For resolutions the LAST marked entry wins. */
  lemma {:induction false} ScanLastMarkedWins(cs: seq<Node>, dflt: Option<int>, i: nat)
    requires ScanResolutions(cs, dflt).error.None?
    requires i < |cs| && EntryMarked(cs[i])
    requires forall j :: i < j < |cs| ==> !EntryMarked(cs[j])
    ensures ScanResolutions(cs, dflt).dflt == Some(ResolutionEntry(cs[i]).value.value)
  {
    var init := cs[..|cs| - 1];
    assert ScanResolutions(init, dflt).error.None?;
    if i < |cs| - 1 {
      assert forall j :: 0 <= j < |init| ==> init[j] == cs[j];
      ScanLastMarkedWins(init, dflt, i);
    }
  }

  /**
   * The default is assigned entry by entry, so an entry that fails after a
   * marked one leaves the loop with the error and with the default that
   * marked entry set.
   */
  lemma ScanFailureKeepsMarkedDefault(cs: seq<Node>, dflt: Option<int>, i: nat, k: nat)
    requires i < k < |cs| && EntryMarked(cs[i])
    requires forall j :: i < j < k ==> !EntryMarked(cs[j])
    requires ScanResolutions(cs[..k], dflt).error.None?
    requires cs[k].Element? && ResolutionEntry(cs[k]).Err?
    ensures ScanResolutions(cs, dflt).error == Some(ResolutionEntry(cs[k]).error)
    ensures ScanResolutions(cs, dflt).dflt == Some(ResolutionEntry(cs[i]).value.value)
  {
    var pre := cs[..k];
    assert forall j :: 0 <= j < |pre| ==> pre[j] == cs[j];
    ScanLastMarkedWins(pre, dflt, i);
    var sofar := ScanResolutions(pre, dflt);
    ScanStopsAt(cs, k, dflt, sofar.values, sofar.dflt, ResolutionEntry(cs[k]).error);
  }

  /** The default after the loop is the one it started from or one of the values it collected. */
  lemma {:induction false} ScanDefaultListed(cs: seq<Node>, dflt: Option<int>)
    ensures var r := ScanResolutions(cs, dflt);
      r.dflt == dflt || (r.dflt.Some? && r.dflt.value in r.values)
  {
    if cs != [] {
      ScanDefaultListed(cs[..|cs| - 1], dflt);
    }
  }

  /** Running the loop again from the default it produced gives the same outcome. */
  lemma {:induction false} ScanIdempotent(cs: seq<Node>, dflt: Option<int>)
    ensures ScanResolutions(cs, ScanResolutions(cs, dflt).dflt) == ScanResolutions(cs, dflt)
  {
    if cs != [] {
      var init := cs[..|cs| - 1];
      var d2 := ScanResolutions(cs, dflt).dflt;
      ScanIdempotent(init, dflt);
      ScanIgnoresStartDefault(init, dflt, d2);
      var prev := ScanResolutions(init, dflt);
      var n := cs[|cs| - 1];
      if prev.error.None? && n.Element? && ResolutionEntry(n).Ok? && ResolutionEntry(n).value.marked {
        assert d2 == Some(ResolutionEntry(n).value.value);
      } else {
        assert d2 == prev.dflt;
      }
    }
  }

  // ---------------------------------------------------------------------------
  // The object's fields and `parse`.

  /** The values of the fields of a `Capabilities` object. */
  datatype Snapshot = Snapshot(
    maxWidth: int,
    maxHeight: int,
    maxResolution: int,
    colorModes: seq<string>,
    defaultColorMode: Option<string>,
    contentTypes: seq<string>,
    documentFormats: seq<string>,
    resolutions: seq<int>,
    defaultResolution: Option<int>)

  /** The fields of a new object: zeros, empty lists and `null`s. */
  const Initial := Snapshot(0, 0, 0, [], None, [], [], [], None)

  /** The fields after `parse`, and the exception it raised, if any. */
  datatype ParseOutcome = ParseOutcome(state: Snapshot, error: Option<CapError>)

  /** MaxHeight, MaxWidth and the two optical maxima, assigned in that order. */
  function SizesStep(root: Node, s: Snapshot): (r: ParseOutcome)
    ensures r.state.resolutions == s.resolutions && r.state.defaultResolution == s.defaultResolution
  {
    var h := IntegerFromDocument(root, NS_SCAN, "MaxHeight");
    if h.Err? then ParseOutcome(s, Some(h.error)) else
    var s1 := s.(maxHeight := h.value);
    var w := IntegerFromDocument(root, NS_SCAN, "MaxWidth");
    if w.Err? then ParseOutcome(s1, Some(w.error)) else
    var s2 := s1.(maxWidth := w.value);
    var x := IntegerFromDocument(root, NS_SCAN, "MaxOpticalXResolution");
    if x.Err? then ParseOutcome(s2, Some(x.error)) else
    var y := IntegerFromDocument(root, NS_SCAN, "MaxOpticalYResolution");
    if y.Err? then ParseOutcome(s2, Some(y.error)) else
    ParseOutcome(s2.(maxResolution := Min(x.value, y.value)), None)
  }

  /** The colour modes, the default colour mode, the content types and the document formats, in that order. */
  function ListsStep(root: Node, s: Snapshot): (r: ParseOutcome)
    ensures r.state.resolutions == s.resolutions && r.state.defaultResolution == s.defaultResolution
    ensures r.state.maxHeight == s.maxHeight && r.state.maxWidth == s.maxWidth && r.state.maxResolution == s.maxResolution
  {
    var cm := ContainerTexts(root, NS_SCAN, "ColorModes");
    if cm.Err? then ParseOutcome(s, Some(cm.error)) else
    var s1 := s.(colorModes := cm.value);
    var dcm := ContainerDefault(root, NS_SCAN, "ColorModes");
    if dcm.Err? then ParseOutcome(s1, Some(dcm.error)) else
    var s2 := s1.(defaultColorMode := dcm.value);
    var ct := ContainerTexts(root, NS_SCAN, "ContentTypes");
    if ct.Err? then ParseOutcome(s2, Some(ct.error)) else
    var s3 := s2.(contentTypes := ct.value);
    var df := ContainerTexts(root, NS_SCAN, "DocumentFormats");
    if df.Err? then ParseOutcome(s3, Some(df.error)) else
    ParseOutcome(s3.(documentFormats := df.value), None)
  }

  /**
   * The discrete resolutions: the default may change entry by entry, while the
   * list is assigned only when every entry has been read.
   */
  function ResolutionsStep(root: Node, s: Snapshot): (r: ParseOutcome)
    ensures r.state == s.(resolutions := r.state.resolutions, defaultResolution := r.state.defaultResolution)
  {
    var dr := SingleElement(root, NS_SCAN, "DiscreteResolutions");
    if dr.Err? then ParseOutcome(s, Some(dr.error)) else
    var scan := ScanResolutions(dr.value.children, s.defaultResolution);
    if scan.error.Some? then ParseOutcome(s.(defaultResolution := scan.dflt), scan.error)
    else ParseOutcome(s.(resolutions := scan.values, defaultResolution := scan.dflt), None)
  }

  /**
   * What `parse` does to the fields `s` given the document element `doc`
   * (`None` when the bytes are not a well-formed document): the fields are
   * assigned one after another, and an exception leaves the earlier
   * assignments in place.
   */
  function ParseDocument(doc: Option<Node>, s: Snapshot): ParseOutcome {
    if doc.None? then ParseOutcome(s, Some(NotWellFormed)) else
    var sizes := SizesStep(doc.value, s);
    if sizes.error.Some? then sizes else
    var lists := ListsStep(doc.value, sizes.state);
    if lists.error.Some? then lists else
    ResolutionsStep(doc.value, lists.state)
  }

  class Capabilities {
    var maxWidth: int
    var maxHeight: int
    var colorModes: seq<string>
    var contentTypes: seq<string>
    var documentFormats: seq<string>
    var resolutions: seq<int>
    var maxResolution: int
    var defaultResolution: Option<int>
    var defaultColorMode: Option<string>

    function State(): Snapshot
      reads this
    {
      Snapshot(maxWidth, maxHeight, maxResolution, colorModes, defaultColorMode,
               contentTypes, documentFormats, resolutions, defaultResolution)
    }

    /** A new object: zeros, empty lists and no defaults. */
    constructor ()
      ensures State() == Initial
    {
      maxWidth, maxHeight, maxResolution := 0, 0, 0;
      colorModes, contentTypes, documentFormats, resolutions := [], [], [], [];
      defaultResolution, defaultColorMode := None, None;
    }

    /** `parse`: read the capability document whose document element is `doc`. */
    method Parse(doc: Option<Node>) returns (error: Option<CapError>)
      modifies this
      ensures ParseOutcome(State(), error) == ParseDocument(doc, old(State()))
    {
      if doc.None? {
        return Some(NotWellFormed);
      }
      error := ReadSizes(doc.value);
      if error.Some? {
        return;
      }
      error := ReadLists(doc.value);
      if error.Some? {
        return;
      }
      error := ReadResolutions(doc.value);
    }

    /** The first statements of `parse`: MaxHeight, MaxWidth, then the smaller optical maximum. */
    method ReadSizes(root: Node) returns (error: Option<CapError>)
      modifies this
      ensures ParseOutcome(State(), error) == SizesStep(root, old(State()))
    {
      var h := IntegerFromDocument(root, NS_SCAN, "MaxHeight");
      if h.Err? {
        return Some(h.error);
      }
      maxHeight := h.value;
      var w := IntegerFromDocument(root, NS_SCAN, "MaxWidth");
      if w.Err? {
        return Some(w.error);
      }
      maxWidth := w.value;
      var x := IntegerFromDocument(root, NS_SCAN, "MaxOpticalXResolution");
      if x.Err? {
        return Some(x.error);
      }
      var y := IntegerFromDocument(root, NS_SCAN, "MaxOpticalYResolution");
      if y.Err? {
        return Some(y.error);
      }
      maxResolution := Min(x.value, y.value);
      return None;
    }

    /** The list fields and the default colour mode, each assigned as soon as it is read. */
    method ReadLists(root: Node) returns (error: Option<CapError>)
      modifies this
      ensures ParseOutcome(State(), error) == ListsStep(root, old(State()))
    {
      var cm := GetChildElementsContent(root, NS_SCAN, "ColorModes");
      if cm.Err? {
        return Some(cm.error);
      }
      colorModes := cm.value;
      var dcm := GetChildElementsDefault(root, NS_SCAN, "ColorModes");
      // the same container was just found, so this second lookup cannot fail
      assert dcm.Ok?;
      defaultColorMode := dcm.value;
      var ct := GetChildElementsContent(root, NS_SCAN, "ContentTypes");
      if ct.Err? {
        return Some(ct.error);
      }
      contentTypes := ct.value;
      var df := GetChildElementsContent(root, NS_SCAN, "DocumentFormats");
      if df.Err? {
        return Some(df.error);
      }
      documentFormats := df.value;
      return None;
    }

    /** The loop over the DiscreteResolutions children; `resolutions` is assigned only after it. */
    method ReadResolutions(root: Node) returns (error: Option<CapError>)
      modifies this
      ensures ParseOutcome(State(), error) == ResolutionsStep(root, old(State()))
    {
      var container := SingleElement(root, NS_SCAN, "DiscreteResolutions");
      if container.Err? {
        return Some(container.error);
      }
      var nl := container.value.children;
      ghost var s0 := State();
      ghost var d0 := defaultResolution;
      var resolutionsBuilder: seq<int> := [];
      var i := 0;
      while i < |nl|
        invariant 0 <= i <= |nl|
        invariant ScanResolutions(nl[..i], d0) == ResolutionScan(resolutionsBuilder, defaultResolution, None)
        invariant State() == s0.(defaultResolution := defaultResolution)
      {
        var n := nl[i];
        ghost var d := defaultResolution;
        ghost var i0 := i;
        if n.Element? {
          var entry := ResolutionEntry(n);
          if entry.Err? {
            ScanStopsAt(nl, i, d0, resolutionsBuilder, d, entry.error);
            return Some(entry.error);
          }
          var res := entry.value;
          ScanAddsEntry(nl, i, d0, res, resolutionsBuilder, d);
          resolutionsBuilder := resolutionsBuilder + [res.value];
          if res.marked {
            defaultResolution := Some(res.value);
          }
          assert defaultResolution == if res.marked then Some(res.value) else d;
        } else {
          ScanSkipsNonElement(nl, i, d0, ResolutionScan(resolutionsBuilder, d, None));
        }
        i := i + 1;
        assert nl[..i] == nl[..i0 + 1];
      }
      assert nl[..i] == nl;
      resolutions := resolutionsBuilder;
      return None;
    }
  }

  // ---------------------------------------------------------------------------
  // What `parse` guarantees.

  /** A required element that is missing or repeated fails the parse with its count. */
  lemma MaxHeightMustBeSingle(root: Node, s: Snapshot)
    requires |Matches(root, NS_SCAN, "MaxHeight")| != 1
    ensures ParseDocument(Some(root), s)
         == ParseOutcome(s, Some(WrongCount(|Matches(root, NS_SCAN, "MaxHeight")|, NS_SCAN, "MaxHeight")))
  {
  }

  /**
   * A failure after MaxHeight keeps the new maxHeight: a document whose
   * MaxHeight reads but whose MaxWidth does not changes maxHeight and nothing else.
   */
  lemma FailureKeepsEarlierFields(root: Node, s: Snapshot)
    requires IntegerFromDocument(root, NS_SCAN, "MaxHeight").Ok?
    requires IntegerFromDocument(root, NS_SCAN, "MaxWidth").Err?
    ensures ParseDocument(Some(root), s).error.Some?
    ensures ParseDocument(Some(root), s).state
         == s.(maxHeight := IntegerFromDocument(root, NS_SCAN, "MaxHeight").value)
  {
  }

  /**
   * A discrete-resolution entry that fails after a marked one fails the parse
   * but leaves defaultResolution set by that marked entry, while resolutions
   * keeps its old value: the two fields are assigned at different times.
   */
  lemma ParseFailureKeepsMarkedDefault(root: Node, s: Snapshot, i: nat, k: nat)
    requires SizesStep(root, s).error.None?
    requires ListsStep(root, SizesStep(root, s).state).error.None?
    requires SingleElement(root, NS_SCAN, "DiscreteResolutions").Ok?
    requires var cs := SingleElement(root, NS_SCAN, "DiscreteResolutions").value.children;
      && i < k < |cs| && EntryMarked(cs[i])
      && (forall j :: i < j < k ==> !EntryMarked(cs[j]))
      && ScanResolutions(cs[..k], s.defaultResolution).error.None?
      && cs[k].Element? && ResolutionEntry(cs[k]).Err?
    ensures var cs := SingleElement(root, NS_SCAN, "DiscreteResolutions").value.children;
      var out := ParseDocument(Some(root), s);
      && out.error == Some(ResolutionEntry(cs[k]).error)
      && out.state.defaultResolution == Some(ResolutionEntry(cs[i]).value.value)
      && out.state.resolutions == s.resolutions
  {
    var t := ListsStep(root, SizesStep(root, s).state).state;
    assert ParseDocument(Some(root), s) == ResolutionsStep(root, t);
    ResolutionsFailureKeepsMarkedDefault(root, t, i, k);
  }

  /** `ParseFailureKeepsMarkedDefault` for the resolution step alone, from any fields `t`. */
  lemma ResolutionsFailureKeepsMarkedDefault(root: Node, t: Snapshot, i: nat, k: nat)
    requires SingleElement(root, NS_SCAN, "DiscreteResolutions").Ok?
    requires var cs := SingleElement(root, NS_SCAN, "DiscreteResolutions").value.children;
      && i < k < |cs| && EntryMarked(cs[i])
      && (forall j :: i < j < k ==> !EntryMarked(cs[j]))
      && ScanResolutions(cs[..k], t.defaultResolution).error.None?
      && cs[k].Element? && ResolutionEntry(cs[k]).Err?
    ensures var cs := SingleElement(root, NS_SCAN, "DiscreteResolutions").value.children;
      var out := ResolutionsStep(root, t);
      && out.error == Some(ResolutionEntry(cs[k]).error)
      && out.state == t.(defaultResolution := Some(ResolutionEntry(cs[i]).value.value))
  {
    var cs := SingleElement(root, NS_SCAN, "DiscreteResolutions").value.children;
    ScanFailureKeepsMarkedDefault(cs, t.defaultResolution, i, k);
  }

  /** After a successful parse, maxResolution is the smaller of the two optical maxima. */
  lemma ParsedMaxResolution(root: Node, s: Snapshot)
    requires ParseDocument(Some(root), s).error.None?
    ensures IntegerFromDocument(root, NS_SCAN, "MaxOpticalXResolution").Ok?
    ensures IntegerFromDocument(root, NS_SCAN, "MaxOpticalYResolution").Ok?
    ensures ParseDocument(Some(root), s).state.maxResolution
         == Min(IntegerFromDocument(root, NS_SCAN, "MaxOpticalXResolution").value,
                IntegerFromDocument(root, NS_SCAN, "MaxOpticalYResolution").value)
  {
  }

  /**
   * After a successful parse, the colour modes are the texts of the ColorModes
   * element children in document order, and the default colour mode is the
   * first of them marked as default, or `null`.
   */
  lemma ParsedColorModes(root: Node, s: Snapshot)
    requires ParseDocument(Some(root), s).error.None?
    ensures SingleElement(root, NS_SCAN, "ColorModes").Ok?
    ensures var modes := SingleElement(root, NS_SCAN, "ColorModes").value.children;
      && ParseDocument(Some(root), s).state.colorModes == ChildTexts(modes)
      && ParseDocument(Some(root), s).state.defaultColorMode == FirstDefault(modes)
  {
  }

  /**
   * After a successful parse, the content types and the document formats are
   * the texts of the element children of their containers, in document order.
   */
  lemma ParsedLists(root: Node, s: Snapshot)
    requires ParseDocument(Some(root), s).error.None?
    ensures SingleElement(root, NS_SCAN, "ContentTypes").Ok?
    ensures SingleElement(root, NS_SCAN, "DocumentFormats").Ok?
    ensures var t := ParseDocument(Some(root), s).state;
      && t.contentTypes == ChildTexts(SingleElement(root, NS_SCAN, "ContentTypes").value.children)
      && t.documentFormats == ChildTexts(SingleElement(root, NS_SCAN, "DocumentFormats").value.children)
  {
  }

  /**
   * After a successful parse, `resolutions` holds one value per element child
   * of the single DiscreteResolutions element, in document order, each the
   * value read from that entry.
   */
  lemma ParsedResolutions(root: Node, s: Snapshot)
    requires ParseDocument(Some(root), s).error.None?
    ensures SingleElement(root, NS_SCAN, "DiscreteResolutions").Ok?
    ensures var es := ElementChildren(SingleElement(root, NS_SCAN, "DiscreteResolutions").value.children);
      var rs := ParseDocument(Some(root), s).state.resolutions;
      && |rs| == |es|
      && forall k :: 0 <= k < |es| ==> ResolutionEntry(es[k]).Ok? && rs[k] == ResolutionEntry(es[k]).value.value
  {
    var lists := ListsStep(root, SizesStep(root, s).state);
    assert ParseDocument(Some(root), s) == ResolutionsStep(root, lists.state);
    var cs := SingleElement(root, NS_SCAN, "DiscreteResolutions").value.children;
    ScanValuesPerEntry(cs, lists.state.defaultResolution);
  }

  /** After a successful parse the default colour mode, when there is one, is one of the colour modes. */
  lemma ParsedDefaultColorModeListed(root: Node, s: Snapshot)
    requires ParseDocument(Some(root), s).error.None?
    ensures var t := ParseDocument(Some(root), s).state;
      t.defaultColorMode.Some? ==> t.defaultColorMode.value in t.colorModes
  {
    ParsedColorModes(root, s);
    var modes := SingleElement(root, NS_SCAN, "ColorModes").value.children;
    if FirstDefault(modes).Some? {
      DefaultIsListed(modes);
    }
  }

  /**
   * After a successful parse the default resolution is either one of the
   * resolutions or the value the field held before.
   */
  lemma ParsedDefaultResolutionListed(root: Node, s: Snapshot)
    requires ParseDocument(Some(root), s).error.None?
    ensures var t := ParseDocument(Some(root), s).state;
      t.defaultResolution == s.defaultResolution
      || (t.defaultResolution.Some? && t.defaultResolution.value in t.resolutions)
  {
    var lists := ListsStep(root, SizesStep(root, s).state);
    assert ParseDocument(Some(root), s) == ResolutionsStep(root, lists.state);
    assert lists.state.defaultResolution == s.defaultResolution;
    var cs := SingleElement(root, NS_SCAN, "DiscreteResolutions").value.children;
    ScanDefaultListed(cs, s.defaultResolution);
  }

  /**
   * A document that marks no discrete resolution as default leaves
   * defaultResolution as it was before the parse.
   */
  lemma ParseKeepsDefaultResolution(root: Node, s: Snapshot)
    requires ParseDocument(Some(root), s).error.None?
    requires SingleElement(root, NS_SCAN, "DiscreteResolutions").Ok?
    requires var cs := SingleElement(root, NS_SCAN, "DiscreteResolutions").value.children;
      forall i :: 0 <= i < |cs| ==> !EntryMarked(cs[i])
    ensures ParseDocument(Some(root), s).state.defaultResolution == s.defaultResolution
  {
    var cs := SingleElement(root, NS_SCAN, "DiscreteResolutions").value.children;
    ScanKeepsUnmarkedDefault(cs, s.defaultResolution);
  }

  /** Re-reading the sizes over their own result changes nothing. */
  lemma SizesIdempotent(root: Node, s: Snapshot)
    ensures SizesStep(root, SizesStep(root, s).state) == SizesStep(root, s)
  {
  }

  /** A state that already holds the sizes a document yields is a fixed point of reading them. */
  lemma SizesFixed(root: Node, s: Snapshot, t: Snapshot)
    requires SizesStep(root, s).error.None?
    requires t.maxHeight == SizesStep(root, s).state.maxHeight
    requires t.maxWidth == SizesStep(root, s).state.maxWidth
    requires t.maxResolution == SizesStep(root, s).state.maxResolution
    ensures SizesStep(root, t) == ParseOutcome(t, None)
  {
  }

  /** Re-reading the list fields over their own result changes nothing. */
  lemma ListsIdempotent(root: Node, s: Snapshot)
    ensures ListsStep(root, ListsStep(root, s).state) == ListsStep(root, s)
  {
  }

  /** A state that already holds the lists a document yields is a fixed point of reading them. */
  lemma ListsFixed(root: Node, s: Snapshot, t: Snapshot)
    requires ListsStep(root, s).error.None?
    requires t.colorModes == ListsStep(root, s).state.colorModes
    requires t.defaultColorMode == ListsStep(root, s).state.defaultColorMode
    requires t.contentTypes == ListsStep(root, s).state.contentTypes
    requires t.documentFormats == ListsStep(root, s).state.documentFormats
    ensures ListsStep(root, t) == ParseOutcome(t, None)
  {
  }

  /** Re-reading the discrete resolutions over their own result changes nothing. */
  lemma ResolutionsIdempotent(root: Node, s: Snapshot)
    ensures ResolutionsStep(root, ResolutionsStep(root, s).state) == ResolutionsStep(root, s)
  {
    var dr := SingleElement(root, NS_SCAN, "DiscreteResolutions");
    if dr.Ok? {
      ScanIdempotent(dr.value.children, s.defaultResolution);
    }
  }

  /** Parsing the same document twice into the same object gives the same fields and outcome as parsing it once. */
  lemma ParseIdempotent(doc: Option<Node>, s: Snapshot)
    ensures ParseDocument(doc, ParseDocument(doc, s).state) == ParseDocument(doc, s)
  {
    if doc.Some? {
      var root := doc.value;
      var sizes := SizesStep(root, s);
      if sizes.error.Some? {
        SizesIdempotent(root, s);
      } else {
        var lists := ListsStep(root, sizes.state);
        var t := ParseDocument(doc, s).state;
        SizesFixed(root, s, t);
        if lists.error.Some? {
          ListsIdempotent(root, sizes.state);
        } else {
          ListsFixed(root, sizes.state, t);
          ResolutionsIdempotent(root, lists.state);
        }
      }
    }
  }
}
