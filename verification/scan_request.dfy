/**
 * The eSCL ScanSettings document that `doScan` POSTs to start a job. It is
 * produced from a fixed template rather than built as a DOM: integers are
 * rendered in decimal, the colour mode is inserted as it is, without escaping.
 */
module ScanRequest {
  import opened Numbers
  import opened ScanNamespaceContext

  /** The template's arguments, in the order they appear: offsets and size in 1/300 inch, colour mode, resolutions. */
  datatype ScanSettings = ScanSettings(
    xOffset: int, yOffset: int, width: int, height: int,
    colorMode: string, xResolution: int, yResolution: int)

  const Prolog: string :=
    "<?xml version=\"1.0\" encoding=\"UTF-8\" ?>\n"
    + "<scan:ScanSettings xmlns:scan=\"" + NS_SCAN + "\" xmlns:pwg=\"" + NS_PWG + "\">\n"
    + "    <pwg:Version>2.6</pwg:Version>\n"
    + "    <pwg:ScanRegions>\n"
    + "        <pwg:ScanRegion>\n"
    + "            <pwg:XOffset>"
  const AfterXOffset: string := "</pwg:XOffset>\n            <pwg:YOffset>"
  const AfterYOffset: string := "</pwg:YOffset>\n            <pwg:Width>"
  const AfterWidth: string := "</pwg:Width>\n            <pwg:Height>"
  const AfterHeight: string :=
    "</pwg:Height>\n"
    + "            <pwg:ContentRegionUnits>escl:ThreeHundredthsOfInches</pwg:ContentRegionUnits>\n"
    + "        </pwg:ScanRegion>\n"
    + "    </pwg:ScanRegions>\n"
    + "    <scan:InputSource>Platten</scan:InputSource>\n"
    + "    <scan:ColorMode>"
  const AfterColorMode: string := "</scan:ColorMode>\n    <scan:XResolution>"
  const AfterXResolution: string := "</scan:XResolution>\n    <scan:YResolution>"
  const Epilog: string := "</scan:YResolution>\n</scan:ScanSettings>"

  /** A template argument that cannot be confused with the markup around it. */
  predicate Plain(v: string) {
    forall i :: 0 <= i < |v| ==> v[i] != '<'
  }

  /** Every piece of fixed text after an argument starts a tag. */
  predicate OpensTag(t: string) {
    |t| > 0 && t[0] == '<'
  }

  /** The request body for the settings `s`. */
  function Render(s: ScanSettings): string {
    Prolog + (FormatInt(s.xOffset) + (AfterXOffset
      + (FormatInt(s.yOffset) + (AfterYOffset
      + (FormatInt(s.width) + (AfterWidth
      + (FormatInt(s.height) + (AfterHeight
      + (s.colorMode + (AfterColorMode
      + (FormatInt(s.xResolution) + (AfterXResolution
      + (FormatInt(s.yResolution) + Epilog)))))))))))))
  }

  /** A decimal rendering never contains markup. */
  lemma FormatIntPlain(n: int)
    ensures Plain(FormatInt(n))
  {
    var s := FormatInt(n);
    if n < 0 {
      assert s == "-" + FormatNat(-n);
      assert forall i :: 1 <= i < |s| ==> s[i] == FormatNat(-n)[i - 1];
    }
  }

  /** In an argument followed by a tag, the first `<` is where the tag starts. */
  lemma FirstTag(x: string, b: string)
    requires Plain(x) && OpensTag(b)
    ensures (x + b)[|x|] == '<'
    ensures forall i :: 0 <= i < |x| ==> (x + b)[i] != '<'
  {
  }

  /** Two arguments followed by tags can be told apart where the tag starts. */
  lemma PeelField(x: string, b: string, y: string, c: string)
    requires x + b == y + c
    requires Plain(x) && Plain(y) && OpensTag(b) && OpensTag(c)
    ensures x == y && b == c
  {
    FirstTag(x, b);
    FirstTag(y, c);
    assert |x| == |y|;
    assert x == (x + b)[..|x|] && y == (y + c)[..|y|];
    assert b == (x + b)[|x|..] && c == (y + c)[|y|..];
  }

  /** A fixed piece followed by the rest can be peeled off the front. */
  lemma PeelFixed(t: string, b: string, c: string)
    requires t + b == t + c
    ensures b == c
  {
    assert b == (t + b)[|t|..] && c == (t + c)[|t|..];
  }

  /**
   * The body determines every argument: as long as colour modes contain no
   * `<`, two different settings never produce the same request.
   */
  lemma {:induction false} RenderInjective(s: ScanSettings, t: ScanSettings)
    requires Plain(s.colorMode) && Plain(t.colorMode)
    requires Render(s) == Render(t)
    ensures s == t
  {
    FormatIntPlain(s.xOffset); FormatIntPlain(t.xOffset);
    FormatIntPlain(s.yOffset); FormatIntPlain(t.yOffset);
    FormatIntPlain(s.width); FormatIntPlain(t.width);
    FormatIntPlain(s.height); FormatIntPlain(t.height);
    FormatIntPlain(s.xResolution); FormatIntPlain(t.xResolution);
    FormatIntPlain(s.yResolution); FormatIntPlain(t.yResolution);

    var r7s := FormatInt(s.yResolution) + Epilog;
    var r7t := FormatInt(t.yResolution) + Epilog;
    var r6s := FormatInt(s.xResolution) + (AfterXResolution + r7s);
    var r6t := FormatInt(t.xResolution) + (AfterXResolution + r7t);
    var r5s := s.colorMode + (AfterColorMode + r6s);
    var r5t := t.colorMode + (AfterColorMode + r6t);
    var r4s := FormatInt(s.height) + (AfterHeight + r5s);
    var r4t := FormatInt(t.height) + (AfterHeight + r5t);
    var r3s := FormatInt(s.width) + (AfterWidth + r4s);
    var r3t := FormatInt(t.width) + (AfterWidth + r4t);
    var r2s := FormatInt(s.yOffset) + (AfterYOffset + r3s);
    var r2t := FormatInt(t.yOffset) + (AfterYOffset + r3t);
    var r1s := FormatInt(s.xOffset) + (AfterXOffset + r2s);
    var r1t := FormatInt(t.xOffset) + (AfterXOffset + r2t);
    assert Render(s) == Prolog + r1s && Render(t) == Prolog + r1t;

    PeelFixed(Prolog, r1s, r1t);
    PeelField(FormatInt(s.xOffset), AfterXOffset + r2s, FormatInt(t.xOffset), AfterXOffset + r2t);
    PeelFixed(AfterXOffset, r2s, r2t);
    PeelField(FormatInt(s.yOffset), AfterYOffset + r3s, FormatInt(t.yOffset), AfterYOffset + r3t);
    PeelFixed(AfterYOffset, r3s, r3t);
    PeelField(FormatInt(s.width), AfterWidth + r4s, FormatInt(t.width), AfterWidth + r4t);
    PeelFixed(AfterWidth, r4s, r4t);
    PeelField(FormatInt(s.height), AfterHeight + r5s, FormatInt(t.height), AfterHeight + r5t);
    PeelFixed(AfterHeight, r5s, r5t);
    PeelField(s.colorMode, AfterColorMode + r6s, t.colorMode, AfterColorMode + r6t);
    PeelFixed(AfterColorMode, r6s, r6t);
    PeelField(FormatInt(s.xResolution), AfterXResolution + r7s, FormatInt(t.xResolution), AfterXResolution + r7t);
    PeelFixed(AfterXResolution, r7s, r7t);
    PeelField(FormatInt(s.yResolution), Epilog, FormatInt(t.yResolution), Epilog);

    FormatIntInjective(s.xOffset, t.xOffset);
    FormatIntInjective(s.yOffset, t.yOffset);
    FormatIntInjective(s.width, t.width);
    FormatIntInjective(s.height, t.height);
    FormatIntInjective(s.xResolution, t.xResolution);
    FormatIntInjective(s.yResolution, t.yResolution);
  }
}
