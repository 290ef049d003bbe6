/**
 * One run of the `airscan` command: find a scanner (unless a URL was given),
 * read its capabilities, settle the colour mode and resolution, and unless
 * only information was asked for, start a scan job and store the document.
 *
 * The network is an input: the services that DNS-SD discovery returned, the
 * capability document that was fetched, the reply to the job POST and the
 * document behind its Location. The requests the command issues are
 * recorded, in order, and the output file is a field holding its contents.
 */
module SimpleScan {
  import opened Wrappers
  import opened Numbers
  import opened MDNSUtil
  import opened Dom
  import opened ScanRequest
  import C = Capabilities

  /** `Character.isWhitespace`: Unicode space separators except the non-breaking ones, and the ASCII controls TAB..CR and FS..US. */
  predicate IsJavaWhitespace(c: char) {
    || c == ' ' || ('\t' <= c <= '\r') || ('\U{1C}' <= c <= '\U{1F}')
    || c == '\U{1680}' || ('\U{2000}' <= c <= '\U{2006}') || ('\U{2008}' <= c <= '\U{200A}')
    || c == '\U{2028}' || c == '\U{2029}' || c == '\U{205F}' || c == '\U{3000}'
  }

  /** `String.isBlank`. */
  predicate IsBlank(s: string) {
    forall i :: 0 <= i < |s| ==> IsJavaWhitespace(s[i])
  }

  // ---------------------------------------------------------------------------
  // URLs.

  predicate IsAsciiLetter(c: char) {
    'a' <= c <= 'z' || 'A' <= c <= 'Z'
  }

  /** A character a URL scheme may continue with: a letter, a digit, '+', '-' or '.'. */
  predicate IsSchemeChar(c: char) {
    IsAsciiLetter(c) || '0' <= c <= '9' || c == '+' || c == '-' || c == '.'
  }

  /**
   * The scheme scan of `new URL` from position `i` of `s`, the scheme having
   * started at `start`: the first ':' ends a scheme that is a letter followed
   * by scheme characters; a '/', the end of the text or any other character
   * first means there is no protocol.
   */
  function ScanScheme(s: string, start: nat, i: nat): bool
    requires start <= i <= |s|
    decreases |s| - i
  {
    if i == |s| then false
    else if s[i] == ':' then i > start
    else if (if i == start then IsAsciiLetter(s[i]) else IsSchemeChar(s[i])) then ScanScheme(s, start, i + 1)
    else false
  }

  /** The scan after the leading characters: a leading "url:", in any case, is skipped. */
  function SchemeAt(s: string, i: nat): bool
    requires i <= |s|
  {
    if i + 4 <= |s| && (s[i] == 'u' || s[i] == 'U') && (s[i + 1] == 'r' || s[i + 1] == 'R')
       && (s[i + 2] == 'l' || s[i + 2] == 'L') && s[i + 3] == ':'
    then ScanScheme(s, i + 4, i + 4)
    else ScanScheme(s, i, i)
  }

  /** The scan from `i`, skipping every character up to ' ' first. */
  function SkipThenScheme(s: string, i: nat): bool
    requires i <= |s|
    decreases |s| - i
  {
    if i < |s| && s[i] <= ' ' then SkipThenScheme(s, i + 1) else SchemeAt(s, i)
  }

  /**
   * `new URL(spec)` finds a protocol: after the skipped leading characters and
   * an optional "url:", the text up to the first ':' is a valid scheme and no
   * '/' comes before that ':'. Without one it throws `MalformedURLException`.
   */
  predicate HasProtocol(spec: string) {
    SkipThenScheme(spec, 0)
  }

  lemma {:induction false} ScanSchemeFindsColon(s: string, start: nat, i: nat)
    requires start <= i <= |s| && ScanScheme(s, start, i)
    ensures exists k :: i <= k < |s| && s[k] == ':'
    decreases |s| - i
  {
    if s[i] != ':' {
      ScanSchemeFindsColon(s, start, i + 1);
    }
  }

  lemma {:induction false} SkipThenSchemeFindsColon(s: string, i: nat)
    requires i <= |s| && SkipThenScheme(s, i)
    ensures exists k :: i <= k < |s| && s[k] == ':'
    decreases |s| - i
  {
    if i < |s| && s[i] <= ' ' {
      SkipThenSchemeFindsColon(s, i + 1);
    } else if i + 4 <= |s| && (s[i] == 'u' || s[i] == 'U') && (s[i + 1] == 'r' || s[i + 1] == 'R')
       && (s[i + 2] == 'l' || s[i + 2] == 'L') && s[i + 3] == ':' {
      assert s[i + 3] == ':';
    } else {
      ScanSchemeFindsColon(s, i, i);
    }
  }

  /** A text without any ':' has no protocol, so `new URL` rejects it. */
  lemma NoColonNoProtocol(spec: string)
    requires forall k :: 0 <= k < |spec| ==> spec[k] != ':'
    ensures !HasProtocol(spec)
  {
    if HasProtocol(spec) {
      SkipThenSchemeFindsColon(spec, 0);
    }
  }

  // ---------------------------------------------------------------------------
  // Discovery.

  /** What JmDNS reports for one `_scanner._tcp.local.` service. */
  datatype ServiceInfo = ServiceInfo(textBytes: Bytes, qualifiedName: string, hostAddresses: seq<string>, port: int)

  /** How a discovered scanner is announced. A key present as a flag shows as `null`, hence the options. */
  datatype Label =
    | MakeAndModel(mfg: Option<Bytes>, mdl: Option<Bytes>)
    | ScannerType(ty: Option<Bytes>)
    | QualifiedName(name: string)

  const MFG: Bytes := [0x6D, 0x66, 0x67]  // "mfg"
  const MDL: Bytes := [0x6D, 0x64, 0x6C]  // "mdl"
  const TY: Bytes := [0x74, 0x79]         // "ty"

  /** Manufacturer and model when both keys are present, else the type, else the service name. */
  function LabelFor(txt: TxtMap, qualifiedName: string): (l: Label)
    ensures l.MakeAndModel? <==> MDL in txt && MFG in txt
    ensures l.ScannerType? <==> !(MDL in txt && MFG in txt) && TY in txt
    ensures l.MakeAndModel? ==> l.mfg == txt[MFG] && l.mdl == txt[MDL]
    ensures l.ScannerType? ==> l.ty == txt[TY]
    ensures l.QualifiedName? ==> l.name == qualifiedName
  {
    if MDL in txt && MFG in txt then MakeAndModel(txt[MFG], txt[MDL])
    else if TY in txt then ScannerType(txt[TY])
    else QualifiedName(qualifiedName)
  }

  /** The eSCL root of a host: `http://<host>:<port>/eSCL/`. */
  function UrlFor(host: string, port: int): string {
    "http://" + host + ":" + FormatInt(port) + "/eSCL/"
  }

  /** A discovered URL is never empty or blank, so once discovery finds a host, `call` goes on to contact it. */
  lemma UrlForIsNotBlank(host: string, port: int)
    ensures var url := UrlFor(host, port);
      && |url| >= 13 && url[..7] == "http://" && url[|url| - 6..] == "/eSCL/"
      && !IsBlank(url)
  {
    var url := UrlFor(host, port);
    assert url[0] == 'h';
  }

  /** A discovered URL, whatever is appended to it, names the http protocol: `new URL` accepts it. */
  lemma DiscoveredUrlHasProtocol(host: string, port: int, suffix: string)
    ensures HasProtocol(UrlFor(host, port) + suffix)
  {
    var spec := UrlFor(host, port) + suffix;
    assert spec[..7] == "http://";
    assert spec[0] == 'h' && spec[1] == 't' && spec[2] == 't' && spec[3] == 'p' && spec[4] == ':';
    assert ScanScheme(spec, 0, 4);
    assert ScanScheme(spec, 0, 3);
    assert ScanScheme(spec, 0, 2);
    assert ScanScheme(spec, 0, 1);
    assert ScanScheme(spec, 0, 0);
  }

  /** The scanner URL after the loop over one service's hosts: each host overwrites it. */
  function LastHostUrl(hosts: seq<string>, port: int, url: Option<string>): Option<string> {
    if hosts == [] then url else Some(UrlFor(hosts[|hosts| - 1], port))
  }

  /** The scanner URL and the announced labels, and the TXT error that ended discovery early. */
  datatype Discovery = Discovery(url: Option<string>, shown: seq<Label>, error: Option<TxtError>)

  /** The loop over the discovered services; a TXT record that fails to decode ends it. */
  function DiscoverAll(services: seq<ServiceInfo>, url: Option<string>, shown: seq<Label>): Discovery {
    if services == [] then Discovery(url, shown, None)
    else
      var prev := DiscoverAll(services[..|services| - 1], url, shown);
      var si := services[|services| - 1];
      if prev.error.Some? then prev
      else
        match Decode(si.textBytes)
        case Err(e) => prev.(error := Some(e))
        case Ok(txt) =>
          Discovery(LastHostUrl(si.hostAddresses, si.port, prev.url), prev.shown + [LabelFor(txt, si.qualifiedName)], None)
  }

  /** `scanForScanner`: discovery runs only when no URL was given or the given one is blank. */
  function FindScanner(services: seq<ServiceInfo>, url: Option<string>, shown: seq<Label>): Discovery {
    if url.None? || IsBlank(url.value) then DiscoverAll(services, url, shown)
    else Discovery(url, shown, None)
  }

  lemma {:induction false} DiscoverErrorSticks(services: seq<ServiceInfo>, k: nat, url: Option<string>, shown: seq<Label>)
    requires k <= |services| && DiscoverAll(services[..k], url, shown).error.Some?
    ensures DiscoverAll(services, url, shown) == DiscoverAll(services[..k], url, shown)
    decreases |services| - k
  {
    if k < |services| {
      assert services[..k + 1][..k] == services[..k];
      DiscoverErrorSticks(services, k + 1, url, shown);
    } else {
      assert services[..k] == services;
    }
  }

  /** One more service whose TXT record decodes: its label is announced, then its hosts are walked. */
  lemma DiscoverAllStep(services: seq<ServiceInfo>, i: nat, url: Option<string>, shown: seq<Label>, txt: TxtMap)
    requires i < |services| && DiscoverAll(services[..i], url, shown).error.None?
    requires Decode(services[i].textBytes) == Ok(txt)
    ensures var prev := DiscoverAll(services[..i], url, shown);
      DiscoverAll(services[..i + 1], url, shown)
        == Discovery(LastHostUrl(services[i].hostAddresses, services[i].port, prev.url),
                     prev.shown + [LabelFor(txt, services[i].qualifiedName)], None)
  {
    assert services[..i + 1][..i] == services[..i];
  }

  /** `parseTxt(si.getTextBytes())`: the TXT bytes are handed over in a new array. */
  method ParseTextBytes(bytes: Bytes) returns (r: Result<TxtMap, TxtError>)
    ensures r == Decode(bytes)
  {
    var data := new uint8[|bytes|](k requires 0 <= k < |bytes| => bytes[k]);
    assert data[..] == bytes;
    r := ParseTxt(data);
  }

  /** A discovery that ended without error ran through every service; the last one may set the URL. */
  lemma DiscoverLastUrl(services: seq<ServiceInfo>, url: Option<string>, shown: seq<Label>)
    requires services != [] && DiscoverAll(services, url, shown).error.None?
    ensures var init := services[..|services| - 1];
      var si := services[|services| - 1];
      && DiscoverAll(init, url, shown).error.None?
      && DiscoverAll(services, url, shown).url == LastHostUrl(si.hostAddresses, si.port, DiscoverAll(init, url, shown).url)
  {
  }

  /** The URL the host loops leave behind, service after service, when no TXT record fails. */
  ghost function HostsUrl(services: seq<ServiceInfo>, url: Option<string>): Option<string> {
    if services == [] then url
    else
      var si := services[|services| - 1];
      LastHostUrl(si.hostAddresses, si.port, HostsUrl(services[..|services| - 1], url))
  }

  /** A discovery without error sets the URL only through the host loops. */
  lemma {:induction false} DiscoverUrl(services: seq<ServiceInfo>, url: Option<string>, shown: seq<Label>)
    requires DiscoverAll(services, url, shown).error.None?
    ensures DiscoverAll(services, url, shown).url == HostsUrl(services, url)
  {
    if services != [] {
      DiscoverLastUrl(services, url, shown);
      DiscoverUrl(services[..|services| - 1], url, shown);
    }
  }

  /** Services after position `k` without hosts leave the host loops' URL as it was after the first `k`. */
  lemma {:induction false} HostsUrlSkipsEmpty(services: seq<ServiceInfo>, k: nat, url: Option<string>)
    requires k <= |services|
    requires forall j :: k <= j < |services| ==> services[j].hostAddresses == []
    ensures HostsUrl(services, url) == HostsUrl(services[..k], url)
    decreases |services| - k
  {
    if k < |services| {
      HostsUrlSkipsEmpty(services, k + 1, url);
      var next := services[..k + 1];
      assert next[..k] == services[..k];
      assert next[k] == services[k];
    } else {
      assert services[..k] == services;
    }
  }

  /** In the host loops, the last host of the last service that has hosts wins. */
  lemma HostsUrlLastWins(services: seq<ServiceInfo>, url: Option<string>, i: nat)
    requires i < |services| && services[i].hostAddresses != []
    requires forall j :: i < j < |services| ==> services[j].hostAddresses == []
    ensures var hosts := services[i].hostAddresses;
      HostsUrl(services, url) == Some(UrlFor(hosts[|hosts| - 1], services[i].port))
  {
    HostsUrlSkipsEmpty(services, i + 1, url);
    assert services[..i + 1][i] == services[i];
  }

  /** The last host of the last service that has hosts wins. */
  lemma DiscoveryLastHostWins(services: seq<ServiceInfo>, url: Option<string>, shown: seq<Label>, i: nat)
    requires DiscoverAll(services, url, shown).error.None?
    requires i < |services| && services[i].hostAddresses != []
    requires forall j :: i < j < |services| ==> services[j].hostAddresses == []
    ensures var hosts := services[i].hostAddresses;
      DiscoverAll(services, url, shown).url == Some(UrlFor(hosts[|hosts| - 1], services[i].port))
  {
    DiscoverUrl(services, url, shown);
    HostsUrlLastWins(services, url, i);
  }

  /** Services without hosts leave the URL as it was; in particular, finding nothing keeps it. */
  lemma {:induction false} DiscoveryWithoutHostsKeepsUrl(services: seq<ServiceInfo>, url: Option<string>, shown: seq<Label>)
    requires forall j :: 0 <= j < |services| ==> services[j].hostAddresses == []
    ensures DiscoverAll(services, url, shown).url == url
  {
    if services != [] {
      var init := services[..|services| - 1];
      assert forall j :: 0 <= j < |init| ==> init[j] == services[j];
      DiscoveryWithoutHostsKeepsUrl(init, url, shown);
    }
  }

  /** Every service whose TXT record decodes is announced once, in discovery order. */
  lemma {:induction false} DiscoveryAnnouncesEachService(services: seq<ServiceInfo>, url: Option<string>, shown: seq<Label>)
    requires DiscoverAll(services, url, shown).error.None?
    ensures |DiscoverAll(services, url, shown).shown| == |shown| + |services|
    ensures forall k :: 0 <= k < |services| ==>
      Decode(services[k].textBytes).Ok? &&
      DiscoverAll(services, url, shown).shown[|shown| + k]
        == LabelFor(Decode(services[k].textBytes).value, services[k].qualifiedName)
  {
    if services != [] {
      var init := services[..|services| - 1];
      var si := services[|services| - 1];
      var prev := DiscoverAll(init, url, shown);
      assert prev.error.None?;
      DiscoveryAnnouncesEachService(init, url, shown);
      var txt := Decode(si.textBytes);
      assert txt.Ok?;
      var shownAll := DiscoverAll(services, url, shown).shown;
      assert shownAll == prev.shown + [LabelFor(txt.value, si.qualifiedName)];
      forall k | 0 <= k < |services|
        ensures Decode(services[k].textBytes).Ok?
        ensures shownAll[|shown| + k] == LabelFor(Decode(services[k].textBytes).value, services[k].qualifiedName)
      {
        if k < |init| {
          assert init[k] == services[k];
          assert shownAll[|shown| + k] == prev.shown[|shown| + k];
        }
      }
    }
  }

  // ---------------------------------------------------------------------------
  // Settling the scan parameters.

  /** Why the command fails. */
  datatype ScanError =
    | TxtDecode(txt: TxtError)            // parseTxt ran past the end of a TXT record
    | CapabilityError(cap: C.CapError)    // parse raised an IOException
    | NoColorModes                        // get(0) on an empty colour-mode list
    | MalformedUrl                        // `new URL` finds no protocol (see HasProtocol)
    | BadStatus(status: int)              // "Scanner did not send http Status 200 or 201"
    | FetchFailed                         // the document behind Location could not be read

  const RGB24: string := "RGB24"

  /**
   * The colour mode when none was given: the scanner's default unless it is
   * null or blank, else RGB24 if the scanner offers it, else the first mode
   * it offers; with no modes at all, `get(0)` fails.
   */
  function ResolveColorMode(dflt: Option<string>, modes: seq<string>): (r: Result<string, ScanError>)
    ensures dflt.Some? && !IsBlank(dflt.value) ==> r == Ok(dflt.value)
    ensures (dflt.None? || IsBlank(dflt.value)) ==>
      && (r.Ok? <==> |modes| > 0)
      && (r.Ok? ==> r.value in modes)
      && (r.Ok? ==> (r.value == RGB24 <==> RGB24 in modes))
      && (r.Ok? && r.value != RGB24 ==> r.value == modes[0])
    ensures r.Err? ==> r.error == NoColorModes
  {
    if dflt.Some? && !IsBlank(dflt.value) then Ok(dflt.value)
    else if RGB24 in modes then Ok(RGB24)
    else if |modes| == 0 then Err(NoColorModes)
    else Ok(modes[0])
  }

  /** The resolution when none was given: the scanner's default, else its maximum. */
  function ResolveResolution(dflt: Option<int>, maxResolution: int): (r: int)
    ensures dflt.Some? ==> r == dflt.value
    ensures dflt.None? ==> r == maxResolution
  {
    if dflt.Some? then dflt.value else maxResolution
  }

  // ---------------------------------------------------------------------------
  // The scan job.

  /** An HTTP request the command issues. */
  datatype Request = Get(url: string) | Post(url: string, contentType: string, body: string)

  /** The reply to the job POST: status, body and Location header (`None` when absent). */
  datatype Response = Response(status: int, body: Bytes, location: Option<string>)

  /** The requests `doScan` issues, what it writes to the output file, and its failure. */
  datatype Exchange = Exchange(requests: seq<Request>, written: Option<Bytes>, error: Option<ScanError>)

  /**
   * `doScan` against the scanner at `base`: POST the settings to ScanJobs;
   * on 200 the document is the reply body, on 201 it is fetched once from
   * Location + "/NextDocument", any other status fails.
   */
  function Dispatch(base: Option<string>, s: ScanSettings, reply: Response, next: Option<Bytes>): Exchange {
    if base.None? || !HasProtocol(base.value + "ScanJobs") then Exchange([], None, Some(MalformedUrl))
    else
      var post := Post(base.value + "ScanJobs", "text/xml", Render(s));
      if reply.status == 200 then Exchange([post], Some(reply.body), None)
      else if reply.status == 201 then
        if reply.location.None? || !HasProtocol(reply.location.value + "/NextDocument") then Exchange([post], None, Some(MalformedUrl))
        else
          var get := Get(reply.location.value + "/NextDocument");
          if next.None? then Exchange([post, get], None, Some(FetchFailed))
          else Exchange([post, get], next, None)
      else Exchange([post], None, Some(BadStatus(reply.status)))
  }

  /**
   * A scanner URL that `new URL` accepts gets exactly one POST of the rendered
   * settings to ScanJobs; a second request, one GET of Location +
   * "/NextDocument", happens exactly on a 201 whose Location `new URL`
   * accepts; there is no retry or polling. The scan succeeds exactly on 200,
   * or on such a 201 when the document could be fetched, and only then is a
   * document written: the reply body on 200, the fetched one on 201. A URL
   * without a protocol fails with nothing sent.
   */
  lemma DispatchRequestsAndOutcome(base: Option<string>, s: ScanSettings, reply: Response, next: Option<Bytes>)
    ensures var x := Dispatch(base, s, reply, next);
      var sendable := base.Some? && HasProtocol(base.value + "ScanJobs");
      var fetchable := reply.location.Some? && HasProtocol(reply.location.value + "/NextDocument");
      && (!sendable ==> x == Exchange([], None, Some(MalformedUrl)))
      && (sendable ==> 1 <= |x.requests| <= 2 && x.requests[0] == Post(base.value + "ScanJobs", "text/xml", Render(s)))
      && (|x.requests| == 2 <==> sendable && reply.status == 201 && fetchable)
      && (|x.requests| == 2 ==> x.requests[1] == Get(reply.location.value + "/NextDocument"))
      && (x.error.None? <==> sendable && (reply.status == 200 || (reply.status == 201 && fetchable && next.Some?)))
      && (x.written.Some? <==> x.error.None?)
      && (x.written.Some? ==> x.written.value == (if reply.status == 200 then reply.body else next.value))
      && (sendable && reply.status != 200 && reply.status != 201 ==> x.error == Some(BadStatus(reply.status)))
      && (sendable && reply.status == 201 && !fetchable ==> x.error == Some(MalformedUrl))
  {
    if base.Some? && reply.status == 201 {
      assert reply.status != 200;
    }
  }

  // ---------------------------------------------------------------------------
  // The command object.

  /** The values of the fields of a `SimpleScan` object, with the request log and the output file. */
  datatype Session = Session(
    scannerUrl: Option<string>,
    colorMode: Option<string>,
    resolution: Option<int>,
    infoOnly: bool,
    shown: seq<Label>,
    requests: seq<Request>,
    output: Option<Bytes>)

  /** Everything the network answers during one run. */
  datatype Network = Network(services: seq<ServiceInfo>, capabilities: Option<Node>, reply: Response, nextDocument: Option<Bytes>)

  /** The fields after `call`, and its exit code or the exception it raised. */
  datatype CallOutcome = CallOutcome(state: Session, result: Result<int, ScanError>)

  /** The session after `doScan`: its requests are logged and the document, if any, is written. */
  function AfterExchange(st: Session, x: Exchange): Session {
    st.(requests := st.requests + x.requests, output := if x.written.Some? then x.written else st.output)
  }

  /** The settings `call` scans with: the whole bed, one resolution for X and Y. */
  function FullPage(caps: C.Snapshot, colorMode: string, resolution: int): ScanSettings {
    ScanSettings(0, 0, caps.maxWidth, caps.maxHeight, colorMode, resolution, resolution)
  }

  /**
   * `call` from the point the scanner is known: fetch and read the
   * capabilities, settle the parameters, scan. The scanner URL, the labels and
   * the options given are kept; the first request is the capabilities GET,
   * unless its URL has no protocol, which fails before anything is sent; with
   * `-i` nothing else is requested or written; success always exits with 0.
   */
  function Configure(net: Network, st: Session): (r: CallOutcome)
    requires st.scannerUrl.Some?
    ensures r.state.scannerUrl == st.scannerUrl && r.state.shown == st.shown && r.state.infoOnly == st.infoOnly
    ensures st.colorMode.Some? ==> r.state.colorMode == st.colorMode
    ensures st.resolution.Some? ==> r.state.resolution == st.resolution
    ensures r.result.Ok? ==> r.result.value == 0
    ensures var fetch := Get(st.scannerUrl.value + "ScannerCapabilities");
      && (!HasProtocol(st.scannerUrl.value + "ScannerCapabilities") ==> r == CallOutcome(st, Err(MalformedUrl)))
      && (HasProtocol(st.scannerUrl.value + "ScannerCapabilities") ==>
            |r.state.requests| > |st.requests| && r.state.requests[..|st.requests| + 1] == st.requests + [fetch])
      && (st.infoOnly ==> r.state.output == st.output && (r.state.requests == st.requests || r.state.requests == st.requests + [fetch]))
  {
    var spec := st.scannerUrl.value + "ScannerCapabilities";
    if !HasProtocol(spec) then CallOutcome(st, Err(MalformedUrl)) else
    var st1 := st.(requests := st.requests + [Get(spec)]);
    var parsed := C.ParseDocument(net.capabilities, C.Initial);
    if parsed.error.Some? then CallOutcome(st1, Err(CapabilityError(parsed.error.value))) else
    var caps := parsed.state;
    var cm := if st1.colorMode.Some? then Ok(st1.colorMode.value) else ResolveColorMode(caps.defaultColorMode, caps.colorModes);
    if cm.Err? then CallOutcome(st1, Err(cm.error)) else
    var res := if st1.resolution.Some? then st1.resolution.value else ResolveResolution(caps.defaultResolution, caps.maxResolution);
    var st2 := st1.(colorMode := Some(cm.value), resolution := Some(res));
    if st2.infoOnly then CallOutcome(st2, Ok(0)) else
    var x := Dispatch(st2.scannerUrl, FullPage(caps, cm.value, res), net.reply, net.nextDocument);
    var st3 := AfterExchange(st2, x);
    if x.error.Some? then CallOutcome(st3, Err(x.error.value)) else CallOutcome(st3, Ok(0))
  }

  /** What `call` does to the session `st` when the network answers `net`. */
  function CallSpec(net: Network, st: Session): CallOutcome {
    var d := FindScanner(net.services, st.scannerUrl, st.shown);
    var st1 := st.(scannerUrl := d.url, shown := d.shown);
    if d.error.Some? then CallOutcome(st1, Err(TxtDecode(d.error.value)))
    else if st1.scannerUrl.None? || |st1.scannerUrl.value| == 0 then CallOutcome(st1, Ok(1))
    else Configure(net, st1)
  }

  class SimpleScan {
    var scannerUrl: Option<string>
    var colorMode: Option<string>
    var resolution: Option<int>
    var infoOnly: bool
    /** The labels printed under "Found scanner:". */
    var shown: seq<Label>
    /** The HTTP requests issued so far, in order. */
    var requests: seq<Request>
    /** The contents of the output file, once written. */
    var output: Option<Bytes>

    function State(): Session
      reads this
    {
      Session(scannerUrl, colorMode, resolution, infoOnly, shown, requests, output)
    }

    /** The object as the command line leaves it: `-u`, `-c`, `-r` and `-i` are options. */
    constructor (scannerUrl: Option<string>, colorMode: Option<string>, resolution: Option<int>, infoOnly: bool)
      ensures State() == Session(scannerUrl, colorMode, resolution, infoOnly, [], [], None)
    {
      this.scannerUrl := scannerUrl;
      this.colorMode := colorMode;
      this.resolution := resolution;
      this.infoOnly := infoOnly;
      shown, requests, output := [], [], None;
    }

    /** `scanForScanner`, given the services discovery found. */
    method ScanForScanner(services: seq<ServiceInfo>) returns (error: Option<TxtError>)
      modifies this
      ensures var d := FindScanner(services, old(scannerUrl), old(shown));
        State() == old(State()).(scannerUrl := d.url, shown := d.shown) && error == d.error
    {
      if scannerUrl.None? || IsBlank(scannerUrl.value) {
        ghost var st0 := State();
        var i := 0;
        while i < |services|
          invariant 0 <= i <= |services|
          invariant DiscoverAll(services[..i], st0.scannerUrl, st0.shown) == Discovery(scannerUrl, shown, None)
          invariant State() == st0.(scannerUrl := scannerUrl, shown := shown)
        {
          var si := services[i];
          var txtData := ParseTextBytes(si.textBytes);
          if txtData.Err? {
            assert services[..i + 1][..i] == services[..i];
            DiscoverErrorSticks(services, i + 1, st0.scannerUrl, st0.shown);
            return Some(txtData.error);
          }
          DiscoverAllStep(services, i, st0.scannerUrl, st0.shown, txtData.value);
          shown := shown + [LabelFor(txtData.value, si.qualifiedName)];
          SelectHost(si.hostAddresses, si.port);
          i := i + 1;
        }
        assert services[..i] == services;
      }
      return None;
    }

    /** The loop over one service's hosts: each host's URL overwrites the scanner URL. */
    method SelectHost(hosts: seq<string>, port: int)
      modifies this
      ensures State() == old(State()).(scannerUrl := LastHostUrl(hosts, port, old(scannerUrl)))
    {
      ghost var before := scannerUrl;
      var j := 0;
      while j < |hosts|
        invariant 0 <= j <= |hosts|
        invariant scannerUrl == LastHostUrl(hosts[..j], port, before)
        invariant State() == old(State()).(scannerUrl := scannerUrl)
      {
        var url := UrlFor(hosts[j], port);
        scannerUrl := Some(url);
        j := j + 1;
      }
      assert hosts[..j] == hosts;
    }

    /**
     * `getCapabilities`: fetch ScannerCapabilities and read it into a new
     * `Capabilities`; a URL without a protocol fails before anything is fetched.
     */
    method GetCapabilities(doc: Option<Node>) returns (c: C.Capabilities, error: Option<ScanError>)
      requires scannerUrl.Some?
      modifies this
      ensures fresh(c)
      ensures var spec := old(scannerUrl).value + "ScannerCapabilities";
        !HasProtocol(spec) ==> State() == old(State()) && error == Some(MalformedUrl)
      ensures var spec := old(scannerUrl).value + "ScannerCapabilities";
        var parsed := C.ParseDocument(doc, C.Initial);
        HasProtocol(spec) ==>
          && State() == old(State()).(requests := old(requests) + [Get(spec)])
          && c.State() == parsed.state
          && error == (if parsed.error.Some? then Some(CapabilityError(parsed.error.value)) else None)
    {
      c := new C.Capabilities();
      var spec := scannerUrl.value + "ScannerCapabilities";
      if !HasProtocol(spec) {
        return c, Some(MalformedUrl);
      }
      requests := requests + [Get(spec)];
      var parseError := c.Parse(doc);
      error := if parseError.Some? then Some(CapabilityError(parseError.value)) else None;
    }

    /** `doScan`: start the job with settings `s` and store the document the scanner returns. */
    method DoScan(s: ScanSettings, reply: Response, next: Option<Bytes>) returns (error: Option<ScanError>)
      modifies this
      ensures var x := Dispatch(old(scannerUrl), s, reply, next);
        State() == AfterExchange(old(State()), x) && error == x.error
    {
      if scannerUrl.None? || !HasProtocol(scannerUrl.value + "ScanJobs") {
        return Some(MalformedUrl);
      }
      requests := requests + [Post(scannerUrl.value + "ScanJobs", "text/xml", Render(s))];
      if reply.status == 200 {
        output := Some(reply.body);
      } else if reply.status == 201 {
        if reply.location.None? || !HasProtocol(reply.location.value + "/NextDocument") {
          return Some(MalformedUrl);
        }
        requests := requests + [Get(reply.location.value + "/NextDocument")];
        if next.None? {
          return Some(FetchFailed);
        }
        output := next;
      } else {
        return Some(BadStatus(reply.status));
      }
      return None;
    }

    /** `call`: returns the exit code (1 when no scanner is known, else 0), or the failure. */
    method Call(net: Network) returns (r: Result<int, ScanError>)
      modifies this
      ensures CallOutcome(State(), r) == CallSpec(net, old(State()))
    {
      var txtError := ScanForScanner(net.services);
      if txtError.Some? {
        return Err(TxtDecode(txtError.value));
      }
      if scannerUrl.None? || |scannerUrl.value| == 0 {
        return Ok(1);
      }
      r := ScanWithScanner(net);
    }

    /** The rest of `call`, once a scanner URL is known. */
    method ScanWithScanner(net: Network) returns (r: Result<int, ScanError>)
      requires scannerUrl.Some?
      modifies this
      ensures CallOutcome(State(), r) == Configure(net, old(State()))
    {
      var c, capError := GetCapabilities(net.capabilities);
      if capError.Some? {
        return Err(capError.value);
      }
      if colorMode.None? {
        var resolved := ResolveColorMode(c.defaultColorMode, c.colorModes);
        if resolved.Err? {
          return Err(resolved.error);
        }
        colorMode := Some(resolved.value);
      }
      if resolution.None? {
        resolution := Some(ResolveResolution(c.defaultResolution, c.maxResolution));
      }
      if !infoOnly {
        var scanError := DoScan(FullPage(c.State(), colorMode.value, resolution.value), net.reply, net.nextDocument);
        if scanError.Some? {
          return Err(scanError.value);
        }
      }
      return Ok(0);
    }
  }

  // ---------------------------------------------------------------------------
  // What `call` guarantees.

  /**
   * `call` exits with 0 or 1 when it does not fail, and with 1 exactly when
   * discovery ends without error and leaves the URL null or empty.
   */
  lemma CallExitCodes(net: Network, st: Session)
    ensures CallSpec(net, st).result.Ok? ==> CallSpec(net, st).result.value in {0, 1}
    ensures var d := FindScanner(net.services, st.scannerUrl, st.shown);
      CallSpec(net, st).result == Ok(1) <==> d.error.None? && (d.url.None? || |d.url.value| == 0)
  {
  }

  /**
   * With `-i`, once the capabilities are fetched and read and the colour mode
   * settles, `call` returns 0 after that one GET.
   */
  lemma InfoOnlyReturnsZero(net: Network, st: Session)
    requires st.infoOnly && st.scannerUrl.Some?
    requires HasProtocol(st.scannerUrl.value + "ScannerCapabilities")
    requires C.ParseDocument(net.capabilities, C.Initial).error.None?
    requires var caps := C.ParseDocument(net.capabilities, C.Initial).state;
      st.colorMode.Some? || ResolveColorMode(caps.defaultColorMode, caps.colorModes).Ok?
    ensures Configure(net, st).result == Ok(0)
    ensures Configure(net, st).state.requests == st.requests + [Get(st.scannerUrl.value + "ScannerCapabilities")]
  {
  }

  /** Without a scanner URL after discovery, `call` returns 1 and contacts nothing. */
  lemma NoScannerReturnsOne(net: Network, st: Session)
    requires FindScanner(net.services, st.scannerUrl, st.shown).error.None?
    requires var url := FindScanner(net.services, st.scannerUrl, st.shown).url; url.None? || url.value == ""
    ensures CallSpec(net, st).result == Ok(1)
    ensures CallSpec(net, st).state.requests == st.requests
  {
  }

  /**
   * A URL of whitespace only sends `call` into discovery, but when discovery
   * finds no host it is kept, and since it is not empty `call` does not
   * return 1: it fails building the capabilities URL, which has no protocol,
   * before any request is sent.
   */
  lemma BlankUrlIsNeitherReplacedNorRejected(net: Network, st: Session)
    requires st.scannerUrl.Some? && |st.scannerUrl.value| > 0 && IsBlank(st.scannerUrl.value)
    requires DiscoverAll(net.services, st.scannerUrl, st.shown).error.None?
    requires forall j :: 0 <= j < |net.services| ==> net.services[j].hostAddresses == []
    ensures CallSpec(net, st).state.scannerUrl == st.scannerUrl
    ensures CallSpec(net, st).result == Err(MalformedUrl)
    ensures CallSpec(net, st).state.requests == st.requests
  {
    DiscoveryWithoutHostsKeepsUrl(net.services, st.scannerUrl, st.shown);
    var spec := st.scannerUrl.value + "ScannerCapabilities";
    forall k | 0 <= k < |spec|
      ensures spec[k] != ':'
    {
      if k < |st.scannerUrl.value| {
        assert spec[k] == st.scannerUrl.value[k];
      }
    }
    NoColonNoProtocol(spec);
  }

  /** The position of the last service with hosts, given that the one at `j` has some. */
  ghost function LastWithHosts(services: seq<ServiceInfo>, j: nat): (i: nat)
    requires j < |services| && services[j].hostAddresses != []
    ensures j <= i < |services| && services[i].hostAddresses != []
    ensures forall k :: i < k < |services| ==> services[k].hostAddresses == []
    decreases |services| - j
  {
    if exists k :: j < k < |services| && services[k].hostAddresses != [] then
      var k :| j < k < |services| && services[k].hostAddresses != [];
      LastWithHosts(services, k)
    else j
  }

  /** A URL found by discovery always passes the protocol check: only a given URL can fail it. */
  lemma DiscoveredUrlIsFetched(net: Network, st: Session)
    requires FindScanner(net.services, st.scannerUrl, st.shown).error.None?
    requires exists j :: 0 <= j < |net.services| && net.services[j].hostAddresses != []
    requires st.scannerUrl.None? || IsBlank(st.scannerUrl.value)
    ensures var out := CallSpec(net, st).state;
      && out.scannerUrl.Some?
      && |out.requests| > |st.requests|
      && out.requests[|st.requests|] == Get(out.scannerUrl.value + "ScannerCapabilities")
  {
    var j :| 0 <= j < |net.services| && net.services[j].hostAddresses != [];
    var i := LastWithHosts(net.services, j);
    var d := FindScanner(net.services, st.scannerUrl, st.shown);
    assert d == DiscoverAll(net.services, st.scannerUrl, st.shown);
    DiscoveryLastHostWins(net.services, st.scannerUrl, st.shown, i);
    var hosts := net.services[i].hostAddresses;
    var host := hosts[|hosts| - 1];
    var port := net.services[i].port;
    assert d.url == Some(UrlFor(host, port));
    UrlForIsNotBlank(host, port);
    DiscoveredUrlHasProtocol(host, port, "ScannerCapabilities");
    var st1 := st.(scannerUrl := d.url, shown := d.shown);
    assert CallSpec(net, st) == Configure(net, st1);
    var out := Configure(net, st1).state;
    assert out.requests[..|st.requests| + 1][|st.requests|] == out.requests[|st.requests|];
  }

  /** A colour mode or resolution given on the command line is never changed. */
  lemma ExplicitOptionsKept(net: Network, st: Session)
    ensures st.colorMode.Some? ==> CallSpec(net, st).state.colorMode == st.colorMode
    ensures st.resolution.Some? ==> CallSpec(net, st).state.resolution == st.resolution
  {
  }

  /**
   * With `-i`, no scan job is started and the output file is not written: the
   * only request `call` can issue is the capabilities GET.
   */
  lemma InfoOnlyDoesNotScan(net: Network, st: Session)
    requires st.infoOnly
    ensures var out := CallSpec(net, st).state;
      || out.requests == st.requests
      || (out.scannerUrl.Some? && out.requests == st.requests + [Get(out.scannerUrl.value + "ScannerCapabilities")])
    ensures CallSpec(net, st).state.output == st.output
  {
  }

  /** `ScanUsesSettledParameters` for the part of `call` after discovery. */
  lemma ConfigureScansFullPage(net: Network, st: Session)
    requires st.scannerUrl.Some?
    requires !st.infoOnly && Configure(net, st).result == Ok(0)
    ensures var out := Configure(net, st).state;
      && out.scannerUrl == st.scannerUrl && out.colorMode.Some? && out.resolution.Some?
      && |out.requests| >= |st.requests| + 2
      && out.requests[|st.requests|] == Get(out.scannerUrl.value + "ScannerCapabilities")
      && out.requests[|st.requests| + 1]
         == Post(out.scannerUrl.value + "ScanJobs", "text/xml",
                 Render(FullPage(C.ParseDocument(net.capabilities, C.Initial).state, out.colorMode.value, out.resolution.value)))
      && out.output.Some?
  {
    var fetch := Get(st.scannerUrl.value + "ScannerCapabilities");
    var caps := C.ParseDocument(net.capabilities, C.Initial).state;
    var cm := if st.colorMode.Some? then Ok(st.colorMode.value) else ResolveColorMode(caps.defaultColorMode, caps.colorModes);
    var res := if st.resolution.Some? then st.resolution.value else ResolveResolution(caps.defaultResolution, caps.maxResolution);
    var st2 := st.(requests := st.requests + [fetch], colorMode := Some(cm.value), resolution := Some(res));
    var x := Dispatch(st.scannerUrl, FullPage(caps, cm.value, res), net.reply, net.nextDocument);
    assert Configure(net, st) == CallOutcome(AfterExchange(st2, x), Ok(0));
    DispatchRequestsAndOutcome(st.scannerUrl, FullPage(caps, cm.value, res), net.reply, net.nextDocument);
    assert AfterExchange(st2, x).requests == st.requests + [fetch] + x.requests;
  }

  /**
   * A successful scan POSTs the full-page settings with the settled colour
   * mode and the same resolution for X and Y, right after fetching the
   * capabilities, and writes a document.
   */
  lemma ScanUsesSettledParameters(net: Network, st: Session)
    requires !st.infoOnly && CallSpec(net, st).result == Ok(0)
    ensures var out := CallSpec(net, st).state;
      && out.scannerUrl.Some? && out.colorMode.Some? && out.resolution.Some?
      && |out.requests| >= |st.requests| + 2
      && out.requests[|st.requests|] == Get(out.scannerUrl.value + "ScannerCapabilities")
      && out.requests[|st.requests| + 1]
         == Post(out.scannerUrl.value + "ScanJobs", "text/xml",
                 Render(FullPage(C.ParseDocument(net.capabilities, C.Initial).state, out.colorMode.value, out.resolution.value)))
      && out.output.Some?
  {
    var d := FindScanner(net.services, st.scannerUrl, st.shown);
    var st1 := st.(scannerUrl := d.url, shown := d.shown);
    assert CallSpec(net, st) == Configure(net, st1);
    ConfigureScansFullPage(net, st1);
  }

  /** `SettledParametersAdvertised` for the part of `call` after discovery. */
  lemma ConfigurePicksAdvertised(net: Network, st: Session)
    requires st.scannerUrl.Some? && Configure(net, st).result.Ok?
    ensures var caps := C.ParseDocument(net.capabilities, C.Initial).state;
      var out := Configure(net, st).state;
      && out.colorMode.Some? && out.resolution.Some?
      && (st.colorMode.None? ==> out.colorMode.value in caps.colorModes)
      && (st.resolution.None? ==> out.resolution.value in caps.resolutions || out.resolution.value == caps.maxResolution)
  {
    var caps := C.ParseDocument(net.capabilities, C.Initial).state;
    var cm := if st.colorMode.Some? then Ok(st.colorMode.value) else ResolveColorMode(caps.defaultColorMode, caps.colorModes);
    var res := if st.resolution.Some? then st.resolution.value else ResolveResolution(caps.defaultResolution, caps.maxResolution);
    assert cm.Ok? && Configure(net, st).state.colorMode == Some(cm.value) && Configure(net, st).state.resolution == Some(res);
    var root := net.capabilities.value;
    C.ParsedDefaultColorModeListed(root, C.Initial);
    C.ParsedDefaultResolutionListed(root, C.Initial);
  }

  /**
   * A colour mode or resolution that `call` settles itself is one the scanner
   * advertises: a colour mode from its ColorModes list, a resolution from its
   * discrete resolutions or its maximum optical resolution.
   */
  lemma SettledParametersAdvertised(net: Network, st: Session)
    requires CallSpec(net, st).result == Ok(0)
    ensures var caps := C.ParseDocument(net.capabilities, C.Initial).state;
      var out := CallSpec(net, st).state;
      && out.colorMode.Some? && out.resolution.Some?
      && (st.colorMode.None? ==> out.colorMode.value in caps.colorModes)
      && (st.resolution.None? ==> out.resolution.value in caps.resolutions || out.resolution.value == caps.maxResolution)
  {
    var d := FindScanner(net.services, st.scannerUrl, st.shown);
    var st1 := st.(scannerUrl := d.url, shown := d.shown);
    assert CallSpec(net, st) == Configure(net, st1);
    ConfigurePicksAdvertised(net, st1);
  }
}
