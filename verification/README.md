# airscan: a Dafny model of the eSCL scanning client

`airscan` is a command-line client for network scanners that speak eSCL
(Apple AirScan). One run does the following:

1. Unless a scanner URL was given, it finds scanners by DNS-SD
   (`_scanner._tcp.local.`). It decodes each service's TXT record to announce
   the scanner, and takes `http://<host>:<port>/eSCL/` of the last address it
   sees as the scanner URL.
2. It fetches `ScannerCapabilities` and reads that XML document into a
   `Capabilities` object.
3. It settles the colour mode and resolution that were not given on the
   command line.
4. Unless only information was asked for, it POSTs a `ScanSettings` document
   to `ScanJobs`. The scanned document comes either in the reply itself
   (status 200) or from `Location/NextDocument` (status 201).

The model has these modules, one per source class, plus the support it needs:

- `MDNSUtil` (`mdns_util.dfy`): the TXT-record decoder. The loop of
  `parseTxt` runs over an `array` and is proved equal to a recursive
  decoding function, `Decode`. A reference encoder states the round trip.
- `Capabilities` (`capabilities.dfy`): the `Capabilities` class.
  - Its fields are updated in place by `Parse`.
  - `Parse` is proved against the function `ParseDocument`, over a
    `Snapshot` of the fields.
  - The element lookups and the entry reader are functions: the source's
    versions contain no loop. The child-text and default loops and the
    discrete-resolution loop are methods, each proved against a function.
- `SimpleScan` (`simple_scan.dfy`): the `SimpleScan` command object.
  - It is a class whose fields are the command-line options. Three more
    fields record the labels announced, the HTTP requests issued and the
    output file's contents.
  - `Call`, `ScanForScanner`, `GetCapabilities` and `DoScan` are methods,
    proved against the functions `CallSpec`, `FindScanner`, `ParseDocument`
    and `Dispatch`.
- `ScanRequest` (`scan_request.dfy`): the ScanSettings request template of
  `doScan`.
- `ScanNamespaceContext` (`namespace_context.dfy`): the namespace constants
  and the XPath namespace context.
- Support modules:
  - `Dom` (`dom.dfy`): an abstract namespace-aware DOM tree, with
    `getElementsByTagNameNS`, `getTextContent` and `getAttributeNS`.
  - `Numbers` (`numbers.dfy`): `Integer.parseInt` and `%d`.
  - `Wrappers` (`wrappers.dfy`): `Option` and `Result`.

The network and DNS-SD are inputs. A `Network` value holds:

- the services discovery returned;
- the capability document (absent when it is not well-formed or cannot be
  read);
- the reply to the job POST;
- the document behind `Location`.

Java exceptions become `Err` values that carry the cause.

## Model

| member | source | states |
|---|---|---|
| MDNSUtil.SignedByte | src/main/java/eu/doppel_helix/airscan/MDNSUtil.java:34-35 | the Java `(int)` of a byte lies in -128..127 and is `<= 0` exactly for 0 and for bytes 0x80..0xFF |
| MDNSUtil.IndexOfIsFirst | src/main/java/eu/doppel_helix/airscan/MDNSUtil.java:39 | `indexOf` finds the first occurrence, and finds none only when there is none |
| MDNSUtil.IndexOf | src/main/java/eu/doppel_helix/airscan/MDNSUtil.java:39 | `indexOf("=")`: a position found lies inside the record (its first-occurrence property is IndexOfIsFirst) |
| MDNSUtil.SplitRecordParts | src/main/java/eu/doppel_helix/airscan/MDNSUtil.java:39-44 | with an '=' the record is key + '=' + value and the key has no '='; without one the whole record is the key and has no '=' |
| MDNSUtil.SplitJoin | src/main/java/eu/doppel_helix/airscan/MDNSUtil.java:39-41 | a key without '=' joined to any value by '=' splits back into exactly that key and value, even when the value contains '=' |
| MDNSUtil.SplitFlag | src/main/java/eu/doppel_helix/airscan/MDNSUtil.java:42-43 | a record without '=' is stored under its whole text with value `null` |
| MDNSUtil.SplitRecord | src/main/java/eu/doppel_helix/airscan/MDNSUtil.java:39-44 | the key is the record before the first '=' and the value everything after it, or the whole record with no value (its properties are SplitRecordParts, SplitJoin and SplitFlag) |
| MDNSUtil.Put | src/main/java/eu/doppel_helix/airscan/MDNSUtil.java:40-44 | `map.put` of one split record: its key now maps to its value, overwriting an earlier entry (see StoreLastWins, StoreUntouched, StoreKeys) |
| MDNSUtil.DecodeFrom | src/main/java/eu/doppel_helix/airscan/MDNSUtil.java:33-46 | the loop from a cursor: stop at the end or at a length byte that reads `<= 0`, fail when the record runs past the end, else store it and move past it (its properties are DecodeEncode, DecodeStopsAtNonPositiveLength, DecodeOverrunFails) |
| MDNSUtil.Decode | src/main/java/eu/doppel_helix/airscan/MDNSUtil.java:30-48 | `parseTxt` of a whole array: the loop from offset 0 with an empty map; ParseTxt is proved equal to it |
| MDNSUtil.ParseTxt | src/main/java/eu/doppel_helix/airscan/MDNSUtil.java:30-48 | the cursor loop over the array returns exactly the decoding `Decode` of the array's contents, map or error |
| MDNSUtil.DecodeEncode | src/main/java/eu/doppel_helix/airscan/MDNSUtil.java:30-48 | decoding length-prefixed records of 1..127 bytes yields the records stored in order: decoding inverts encoding |
| MDNSUtil.DecodeEmpty | src/main/java/eu/doppel_helix/airscan/MDNSUtil.java:31-33 | an empty array gives an empty map |
| MDNSUtil.DecodeStopsAtNonPositiveLength | src/main/java/eu/doppel_helix/airscan/MDNSUtil.java:34-37 | a length byte 0 or >= 0x80 after any records ends decoding with those records, whatever follows |
| MDNSUtil.DecodeOverrunFails | src/main/java/eu/doppel_helix/airscan/MDNSUtil.java:38 | a record whose length runs past the end of the array is an error (the out-of-bounds exception), not a stop |
| MDNSUtil.StoreLastWins | src/main/java/eu/doppel_helix/airscan/MDNSUtil.java:41-43 | for a duplicated key the last record that names it decides its value |
| MDNSUtil.StoreUntouched | src/main/java/eu/doppel_helix/airscan/MDNSUtil.java:41-43 | a key no record names keeps its earlier entry, or stays absent |
| MDNSUtil.StoreKeys | src/main/java/eu/doppel_helix/airscan/MDNSUtil.java:41-43 | the decoded keys are exactly the earlier keys plus the records' keys |
| ScanNamespaceContext.GetNamespaceURI | src/main/java/eu/doppel_helix/airscan/ScanNamespaceContext.java:24-35 | a null prefix fails; "scan" and "pwg", and only they, map to the two eSCL/PWG namespace URIs; any other prefix gives `null` |
| ScanNamespaceContext.BoundPrefixesDistinct | src/main/java/eu/doppel_helix/airscan/ScanNamespaceContext.java:24-35 | two prefixes bound to the same URI are the same prefix (the binding is one-to-one) |
| ScanNamespaceContext.GetPrefix | src/main/java/eu/doppel_helix/airscan/ScanNamespaceContext.java:37-40 | the reverse lookup always answers `null` |
| ScanNamespaceContext.GetPrefixes | src/main/java/eu/doppel_helix/airscan/ScanNamespaceContext.java:42-45 | the prefix iterator is always `null` |
| Numbers.ParseInt | src/main/java/eu/doppel_helix/airscan/Capabilities.java:193-199 | `Integer.parseInt`: a text parses only when it is digits, or a sign followed by at least one digit; digits or "+digits" parse iff their value is at most 2147483647, "-digits" iff its value is at most 2147483648, and the result is that value, negated after '-' |
| Numbers.FormatInt | src/main/java/eu/doppel_helix/airscan/SimpleScan.java:165-188 | `%d` renders a non-empty decimal that starts with '-' exactly for negative numbers |
| Numbers.ParseFormatRoundTrip | src/main/java/eu/doppel_helix/airscan/Capabilities.java:195 | every 32-bit int printed with `%d` parses back to itself |
| Numbers.FormatIntInjective | src/main/java/eu/doppel_helix/airscan/SimpleScan.java:165-188 | different integers render differently |
| Dom.Matches | src/main/java/eu/doppel_helix/airscan/Capabilities.java:202 | every element `getElementsByTagNameNS` returns has that namespace and local name |
| Dom.MatchesAreDescendants | src/main/java/eu/doppel_helix/airscan/Capabilities.java:202 | an element is returned iff it is a proper descendant with that namespace and local name |
| Dom.ElementChildren | src/main/java/eu/doppel_helix/airscan/Capabilities.java:169-172 | the `instanceof Element` filter keeps only children that are elements |
| Dom.ElementIsListed | src/main/java/eu/doppel_helix/airscan/Capabilities.java:169-172 | every child that is an element is kept by that filter |
| Dom.ElementChildrenAppend | src/main/java/eu/doppel_helix/airscan/Capabilities.java:169-172 | the `instanceof Element` filter of a concatenation is the concatenation of the filtered parts, so document order and repeated elements are kept |
| Dom.ElementChildrenSingle | src/main/java/eu/doppel_helix/airscan/Capabilities.java:169-172 | a single child is kept iff it is an element |
| Dom.TextContent | src/main/java/eu/doppel_helix/airscan/Capabilities.java:173 | `getTextContent`: the text of all descendant text nodes in document order, comments contributing nothing |
| Dom.AttributeNS | src/main/java/eu/doppel_helix/airscan/Capabilities.java:153-155 | `getAttributeNS`: the attribute's value, or "" when the element has none |
| Dom.IsTrueIgnoringCase | src/main/java/eu/doppel_helix/airscan/Capabilities.java:153-155 | `"true".equalsIgnoreCase(s)`: s is four characters spelling "true" in any mix of cases |
| Capabilities.Min | src/main/java/eu/doppel_helix/airscan/Capabilities.java:134-137 | `Math.min` is at most each argument and equal to one of them |
| Capabilities.SingleElement | src/main/java/eu/doppel_helix/airscan/Capabilities.java:201-207 | a found element has the requested namespace and local name |
| Capabilities.SingleElementIsTheOnlyMatch | src/main/java/eu/doppel_helix/airscan/Capabilities.java:201-207 | the lookup succeeds iff exactly one proper descendant matches, returns that unique match, and otherwise fails reporting the number found |
| Capabilities.IntegerFromDocument | src/main/java/eu/doppel_helix/airscan/Capabilities.java:193-199 | a failed lookup is passed on unchanged; after a successful lookup the result is a value iff the element's text parses, that value is the parse (a 32-bit int), and an unparsable text fails with NumberFormat of that text |
| Capabilities.ChildTexts | src/main/java/eu/doppel_helix/airscan/Capabilities.java:166-177 | one text per element child, in document order, each that child's text content |
| Capabilities.ContainerTexts | src/main/java/eu/doppel_helix/airscan/Capabilities.java:166-177 | what `getChildElementsContent` returns: the single container's child texts, or the lookup's error (GetChildElementsContent is proved equal to it) |
| Capabilities.GetChildElementsContent | src/main/java/eu/doppel_helix/airscan/Capabilities.java:166-177 | the loop returns the texts of the single container's element children, or the lookup's error |
| Capabilities.FirstDefault | src/main/java/eu/doppel_helix/airscan/Capabilities.java:179-191 | the result is `null` exactly when no child carries `default="true"` (any case) |
| Capabilities.MarkedDefault | src/main/java/eu/doppel_helix/airscan/Capabilities.java:184-185 | an element carries the scan-namespace attribute `default` equal to "true" in any case |
| Capabilities.FirstDefaultWins | src/main/java/eu/doppel_helix/airscan/Capabilities.java:181-187 | the FIRST marked child is returned; later marked children are ignored |
| Capabilities.FirstDefaultIsMarked | src/main/java/eu/doppel_helix/airscan/Capabilities.java:181-187 | a default that is found is the text of a marked child |
| Capabilities.DefaultIsListed | src/main/java/eu/doppel_helix/airscan/Capabilities.java:166-191 | the default read from a container is among the texts read from the same container |
| Capabilities.GetChildElementsDefault | src/main/java/eu/doppel_helix/airscan/Capabilities.java:179-191 | the loop returns the first marked child's text, `null`, or the lookup's error |
| Capabilities.ContainerDefault | src/main/java/eu/doppel_helix/airscan/Capabilities.java:179-191 | what `getChildElementsDefault` returns: the first marked child text of the single container, `null`, or the lookup's error (GetChildElementsDefault is proved equal to it) |
| Capabilities.ScanResolutions | src/main/java/eu/doppel_helix/airscan/Capabilities.java:144-159 | the discrete-resolution loop over the children: skip non-elements, stop at the first entry that fails, otherwise collect its value and let a marked entry set the default (its properties are the Scan* lemmas below and ReadResolutions) |
| Capabilities.ResolutionEntry | src/main/java/eu/doppel_helix/airscan/Capabilities.java:147-156 | errors come from the X lookup, the Y lookup, the X parse and the Y parse, in that order; the entry reads iff both lookups succeed and both texts parse; its value is a 32-bit int at most x and at most y and equal to one of them; it is marked iff the entry, its XResolution or its YResolution carries `default="true"` in any case |
| Capabilities.EntryMarked | src/main/java/eu/doppel_helix/airscan/Capabilities.java:153-155 | an element child that reads as an entry and is marked by the entry, its X or its Y element; the premise of ScanLastMarkedWins and ScanKeepsUnmarkedDefault |
| Capabilities.ScanErrorSticks | src/main/java/eu/doppel_helix/airscan/Capabilities.java:144-159 | once an entry fails, later children change nothing |
| Capabilities.ScanIgnoresStartDefault | src/main/java/eu/doppel_helix/airscan/Capabilities.java:144-159 | the values collected and the error do not depend on the default held before the loop |
| Capabilities.ScanValuesPerEntry | src/main/java/eu/doppel_helix/airscan/Capabilities.java:142-160 | without error there is one value per element child, in order, each that entry's `min(x, y)` |
| Capabilities.ScanKeepsUnmarkedDefault | src/main/java/eu/doppel_helix/airscan/Capabilities.java:153-157 | with no marked entry the default resolution is left as it was, never reset |
| Capabilities.ScanLastMarkedWins | src/main/java/eu/doppel_helix/airscan/Capabilities.java:153-157 | the LAST marked entry (entry, X or Y element marked) sets the default resolution |
| Capabilities.ScanFailureKeepsMarkedDefault | src/main/java/eu/doppel_helix/airscan/Capabilities.java:144-159 | a failing entry after a marked one ends the loop with its error and with the default that marked entry set |
| Capabilities.ScanDefaultListed | src/main/java/eu/doppel_helix/airscan/Capabilities.java:144-159 | the default after the loop is the one before it or one of the collected values |
| Capabilities.ScanIdempotent | src/main/java/eu/doppel_helix/airscan/Capabilities.java:144-159 | running the loop again from the default it produced gives the same outcome |
| Capabilities.SizesStep | src/main/java/eu/doppel_helix/airscan/Capabilities.java:132-137 | maxHeight, maxWidth, then `min` of the two optical maxima, each assigned before the next read, the first failure ending the step (see MaxHeightMustBeSingle, FailureKeepsEarlierFields, ParsedMaxResolution, SizesIdempotent) |
| Capabilities.ListsStep | src/main/java/eu/doppel_helix/airscan/Capabilities.java:138-141 | colorModes, defaultColorMode, contentTypes, documentFormats assigned in that order, the first failure ending the step (see ParsedColorModes, ParsedLists, ListsIdempotent) |
| Capabilities.ResolutionsStep | src/main/java/eu/doppel_helix/airscan/Capabilities.java:142-160 | the DiscreteResolutions lookup, then the loop: the default is kept as the loop left it even on failure, and resolutions is assigned only on success (see ParsedResolutions, ParseKeepsDefaultResolution, ResolutionsIdempotent) |
| Capabilities.ParseDocument | src/main/java/eu/doppel_helix/airscan/Capabilities.java:122-164 | `parse` on the fields: a document that is not well-formed fails first, then sizes, lists and resolutions in order, a failure keeping earlier assignments (Parse is proved against it; see ParseIdempotent) |
| Capabilities.Capabilities.constructor | src/main/java/eu/doppel_helix/airscan/Capabilities.java:35-43 | a new object has zero sizes, empty lists and no defaults |
| Capabilities.Capabilities.Parse | src/main/java/eu/doppel_helix/airscan/Capabilities.java:122-164 | the new fields and the exception are those of `ParseDocument` applied to the old fields: sizes, then lists, then resolutions, and a failure keeps the earlier assignments |
| Capabilities.Capabilities.ReadSizes | src/main/java/eu/doppel_helix/airscan/Capabilities.java:132-137 | maxHeight, then maxWidth, then `min` of the optical maxima are assigned, stopping at the first failure |
| Capabilities.Capabilities.ReadLists | src/main/java/eu/doppel_helix/airscan/Capabilities.java:138-141 | colorModes, defaultColorMode, contentTypes, documentFormats are assigned in order, stopping at the first failure |
| Capabilities.Capabilities.ReadResolutions | src/main/java/eu/doppel_helix/airscan/Capabilities.java:142-160 | the loop changes the default resolution entry by entry and assigns `resolutions` only when every entry has been read |
| Capabilities.MaxHeightMustBeSingle | src/main/java/eu/doppel_helix/airscan/Capabilities.java:132 | a missing or repeated MaxHeight fails the parse with its count and changes no field |
| Capabilities.FailureKeepsEarlierFields | src/main/java/eu/doppel_helix/airscan/Capabilities.java:132-133 | a readable MaxHeight with an unreadable MaxWidth fails yet leaves the new maxHeight in place, and changes nothing else |
| Capabilities.ParseFailureKeepsMarkedDefault | src/main/java/eu/doppel_helix/airscan/Capabilities.java:142-163 | a discrete-resolution entry that fails after a marked one (none marked in between) fails the parse with that entry's error, yet defaultResolution holds the marked entry's value while resolutions keeps its old value |
| Capabilities.ResolutionsFailureKeepsMarkedDefault | src/main/java/eu/doppel_helix/airscan/Capabilities.java:142-160 | the same for the resolution step alone: the outcome is that error with only defaultResolution changed, to the marked entry's value |
| Capabilities.ParsedMaxResolution | src/main/java/eu/doppel_helix/airscan/Capabilities.java:134-137 | after a successful parse both optical maxima read, and maxResolution is exactly `min` of them |
| Capabilities.ParsedLists | src/main/java/eu/doppel_helix/airscan/Capabilities.java:140-141 | after a successful parse contentTypes and documentFormats are the texts of the element children of their single containers, in document order |
| Capabilities.ParsedResolutions | src/main/java/eu/doppel_helix/airscan/Capabilities.java:142-160 | after a successful parse resolutions has one value per element child of the single DiscreteResolutions, in order, each child reads as an entry and the value is that entry's |
| Capabilities.ParsedColorModes | src/main/java/eu/doppel_helix/airscan/Capabilities.java:138-139 | after a successful parse colorModes are the ColorModes children's texts and defaultColorMode the first marked one |
| Capabilities.ParsedDefaultColorModeListed | src/main/java/eu/doppel_helix/airscan/Capabilities.java:138-139 | after a successful parse the default colour mode, if any, is one of the colour modes |
| Capabilities.ParsedDefaultResolutionListed | src/main/java/eu/doppel_helix/airscan/Capabilities.java:142-160 | after a successful parse the default resolution is one of the resolutions or the value held before |
| Capabilities.ParseKeepsDefaultResolution | src/main/java/eu/doppel_helix/airscan/Capabilities.java:153-157 | a document marking no resolution keeps the earlier defaultResolution |
| Capabilities.SizesIdempotent | src/main/java/eu/doppel_helix/airscan/Capabilities.java:132-137 | re-reading the sizes over their own result changes nothing |
| Capabilities.SizesFixed | src/main/java/eu/doppel_helix/airscan/Capabilities.java:132-137 | fields that already hold a document's sizes are a fixed point of reading them |
| Capabilities.ListsIdempotent | src/main/java/eu/doppel_helix/airscan/Capabilities.java:138-141 | re-reading the list fields over their own result changes nothing |
| Capabilities.ListsFixed | src/main/java/eu/doppel_helix/airscan/Capabilities.java:138-141 | fields that already hold a document's lists are a fixed point of reading them |
| Capabilities.ResolutionsIdempotent | src/main/java/eu/doppel_helix/airscan/Capabilities.java:142-160 | re-reading the resolutions over their own result changes nothing |
| Capabilities.ParseIdempotent | src/main/java/eu/doppel_helix/airscan/Capabilities.java:122-164 | parsing the same document twice into one object gives the fields and outcome of parsing it once |
| ScanRequest.FormatIntPlain | src/main/java/eu/doppel_helix/airscan/SimpleScan.java:165-188 | a `%d` argument never contains markup |
| ScanRequest.Render | src/main/java/eu/doppel_helix/airscan/SimpleScan.java:165-188 | the ScanSettings template with the seven arguments in order, numbers as `%d` and the colour mode verbatim (RenderInjective shows the body determines the settings) |
| ScanRequest.PeelField | src/main/java/eu/doppel_helix/airscan/SimpleScan.java:165-188 | an argument without '<' is delimited by the tag that follows it |
| ScanRequest.RenderInjective | src/main/java/eu/doppel_helix/airscan/SimpleScan.java:165-188 | the request body determines all seven settings when the colour mode contains no '<' |
| SimpleScan.IsJavaWhitespace | src/main/java/eu/doppel_helix/airscan/SimpleScan.java:251 | `Character.isWhitespace`: Unicode space separators other than the non-breaking ones, TAB..CR and FS..US |
| SimpleScan.IsBlank | src/main/java/eu/doppel_helix/airscan/SimpleScan.java:251 | `String.isBlank`: every character is whitespace, so the empty string is blank |
| SimpleScan.HasProtocol | src/main/java/eu/doppel_helix/airscan/SimpleScan.java:128 | `new URL(spec)` finds a protocol: after leading characters up to ' ' and an optional "url:" in any case, a letter and then letters, digits, '+', '-' or '.' up to the first ':', with no '/' before it |
| SimpleScan.NoColonNoProtocol | src/main/java/eu/doppel_helix/airscan/SimpleScan.java:128 | a text with no ':' has no protocol, so `new URL` rejects it |
| SimpleScan.DiscoveredUrlHasProtocol | src/main/java/eu/doppel_helix/airscan/SimpleScan.java:268 | `http://host:port/eSCL/` followed by any suffix has a protocol, whatever the host |
| SimpleScan.LabelFor | src/main/java/eu/doppel_helix/airscan/SimpleScan.java:260-266 | a scanner is announced by mfg and mdl when both keys are present, else by ty when present, else by its service name |
| SimpleScan.UrlFor | src/main/java/eu/doppel_helix/airscan/SimpleScan.java:268 | `String.format("http://%s:%d/eSCL/", host, port)` (its properties are UrlForIsNotBlank and DiscoveredUrlHasProtocol) |
| SimpleScan.LastHostUrl | src/main/java/eu/doppel_helix/airscan/SimpleScan.java:267-271 | the host loop on values: the URL of the last host, or the old URL when there are none (SelectHost is proved equal to it) |
| SimpleScan.UrlForIsNotBlank | src/main/java/eu/doppel_helix/airscan/SimpleScan.java:268 | a discovered URL is `http://…/eSCL/` and is neither empty nor blank |
| SimpleScan.DiscoverErrorSticks | src/main/java/eu/doppel_helix/airscan/SimpleScan.java:258-259 | a TXT record that fails to decode ends discovery: later services change nothing |
| SimpleScan.DiscoverAllStep | src/main/java/eu/doppel_helix/airscan/SimpleScan.java:258-271 | one service that decodes appends its label and lets its hosts set the URL |
| SimpleScan.DiscoverLastUrl | src/main/java/eu/doppel_helix/airscan/SimpleScan.java:258-271 | the last service's hosts, if any, decide the URL left by the earlier ones |
| SimpleScan.DiscoveryLastHostWins | src/main/java/eu/doppel_helix/airscan/SimpleScan.java:267-271 | the URL is that of the last host of the last service with hosts |
| SimpleScan.DiscoveryWithoutHostsKeepsUrl | src/main/java/eu/doppel_helix/airscan/SimpleScan.java:267-271 | services without hosts leave the URL unchanged; finding nothing keeps the old URL |
| SimpleScan.DiscoveryAnnouncesEachService | src/main/java/eu/doppel_helix/airscan/SimpleScan.java:258-266 | each discovered service is announced once, in order, by its label |
| SimpleScan.DiscoverAll | src/main/java/eu/doppel_helix/airscan/SimpleScan.java:258-272 | the loop over the services: decode each TXT record, announce the label, let each host set the URL; a decoding error ends it (see DiscoverErrorSticks, DiscoveryLastHostWins, DiscoveryAnnouncesEachService) |
| SimpleScan.FindScanner | src/main/java/eu/doppel_helix/airscan/SimpleScan.java:250-274 | `scanForScanner`: discovery only when the URL is null or blank, otherwise nothing changes (ScanForScanner is proved against it) |
| SimpleScan.ParseTextBytes | src/main/java/eu/doppel_helix/airscan/SimpleScan.java:259 | handing a service's TXT bytes to `parseTxt` yields their decoding |
| SimpleScan.ResolveColorMode | src/main/java/eu/doppel_helix/airscan/SimpleScan.java:103-109 | a non-null, non-blank scanner default is taken; otherwise RGB24 iff offered, else the first mode offered, and failure iff none is offered |
| SimpleScan.ResolveResolution | src/main/java/eu/doppel_helix/airscan/SimpleScan.java:111-117 | the scanner's default resolution if it has one, else its maximum resolution |
| SimpleScan.FullPage | src/main/java/eu/doppel_helix/airscan/SimpleScan.java:120 | the arguments `call` passes to `doScan`: offsets 0 and 0, the maximum width and height, the settled colour mode, and one resolution for X and Y |
| SimpleScan.Dispatch | src/main/java/eu/doppel_helix/airscan/SimpleScan.java:190-243 | `doScan` on values: the requests, the document written and the failure (its properties are DispatchRequestsAndOutcome) |
| SimpleScan.Configure | src/main/java/eu/doppel_helix/airscan/SimpleScan.java:101-123 | `call` once a scanner is known keeps the URL, the labels, `-i` and any explicit colour mode and resolution; a capabilities URL without a protocol fails with MalformedUrl and nothing sent; otherwise the first new request is the capabilities GET; with `-i` the output is untouched and at most that GET is sent; success returns 0 |
| SimpleScan.CallSpec | src/main/java/eu/doppel_helix/airscan/SimpleScan.java:91-124 | `call` on values: discovery, a TXT error, exit 1 for a null or empty URL, else Configure (Call is proved against it; see the lemmas below) |
| SimpleScan.DispatchRequestsAndOutcome | src/main/java/eu/doppel_helix/airscan/SimpleScan.java:190-243 | a ScanJobs URL without a protocol fails with MalformedUrl and sends nothing; otherwise exactly one POST of the rendered settings to ScanJobs as `text/xml`; a GET of Location + "/NextDocument" follows iff the status is 201 with a Location that has a protocol, and a 201 without one fails with MalformedUrl; success iff 200, or such a 201 with the document fetched; a document is written iff the scan succeeds (the reply body on 200, the fetched one on 201); any other status fails with that status |
| SimpleScan.SimpleScan.constructor | src/main/java/eu/doppel_helix/airscan/SimpleScan.java:55-74 | the options as given; nothing announced, requested or written |
| SimpleScan.SimpleScan.ScanForScanner | src/main/java/eu/doppel_helix/airscan/SimpleScan.java:250-274 | discovery runs only for a null or blank URL. It then sets the URL and the labels as `FindScanner` says and reports a TXT error; no other field changes |
| SimpleScan.SimpleScan.SelectHost | src/main/java/eu/doppel_helix/airscan/SimpleScan.java:267-271 | the inner loop leaves the URL of the last host, or the old URL when there are none |
| SimpleScan.SimpleScan.GetCapabilities | src/main/java/eu/doppel_helix/airscan/SimpleScan.java:126-143 | a capabilities URL without a protocol fails with MalformedUrl and changes nothing; otherwise one GET of ScannerCapabilities is logged, a fresh object holds the fields `ParseDocument` gives from the initial ones, and a parse failure is reported |
| SimpleScan.SimpleScan.DoScan | src/main/java/eu/doppel_helix/airscan/SimpleScan.java:157-248 | the requests logged, the document written and the failure (including a URL without a protocol) are those of `Dispatch` |
| SimpleScan.SimpleScan.Call | src/main/java/eu/doppel_helix/airscan/SimpleScan.java:91-124 | the new fields and the exit code or failure are those of `CallSpec` on the old fields |
| SimpleScan.SimpleScan.ScanWithScanner | src/main/java/eu/doppel_helix/airscan/SimpleScan.java:101-123 | the part of `call` after a scanner is known does what `Configure` says |
| SimpleScan.CallExitCodes | src/main/java/eu/doppel_helix/airscan/SimpleScan.java:91-124 | `call` returns 0 or 1 when it does not fail, and returns 1 exactly when discovery ends without error with a null or empty URL |
| SimpleScan.InfoOnlyReturnsZero | src/main/java/eu/doppel_helix/airscan/SimpleScan.java:119-123 | with `-i`, a URL with a protocol, a readable capability document and a colour mode that settles, `call` returns 0 after exactly the capabilities GET |
| SimpleScan.NoScannerReturnsOne | src/main/java/eu/doppel_helix/airscan/SimpleScan.java:94-97 | a null or empty URL after discovery returns 1 and issues no request |
| SimpleScan.BlankUrlIsNeitherReplacedNorRejected | src/main/java/eu/doppel_helix/airscan/SimpleScan.java:91-128 | a whitespace-only URL is sent into discovery by the `isBlank` test of `scanForScanner`; when discovery finds no host it is kept and passes the `isEmpty` test, so `call` does not return 1: it fails with MalformedUrl, because URL + "ScannerCapabilities" has no protocol, and sends no request |
| SimpleScan.ExplicitOptionsKept | src/main/java/eu/doppel_helix/airscan/SimpleScan.java:103-117 | a colour mode or resolution given on the command line is never changed |
| SimpleScan.InfoOnlyDoesNotScan | src/main/java/eu/doppel_helix/airscan/SimpleScan.java:119-121 | with `-i` the requests are either unchanged or extended by exactly one GET of the scanner URL + "ScannerCapabilities", and no output is written |
| SimpleScan.DiscoveredUrlIsFetched | src/main/java/eu/doppel_helix/airscan/SimpleScan.java:126-128 | when a null or blank URL is replaced by discovery (some service has hosts, no TXT error), `call` always gets as far as sending the capabilities GET to the discovered URL |
| SimpleScan.ConfigureScansFullPage | src/main/java/eu/doppel_helix/airscan/SimpleScan.java:101-123 | after discovery, a successful scan is the capabilities GET followed by the full-page POST with the settled parameters, and writes a document |
| SimpleScan.ScanUsesSettledParameters | src/main/java/eu/doppel_helix/airscan/SimpleScan.java:91-124 | a successful scan issues the capabilities GET and then the POST of the full bed, with the settled colour mode and the same resolution for X and Y, and writes a document |
| SimpleScan.ConfigurePicksAdvertised | src/main/java/eu/doppel_helix/airscan/SimpleScan.java:101-117 | after discovery, settled parameters come from what the scanner advertises |
| SimpleScan.SettledParametersAdvertised | src/main/java/eu/doppel_helix/airscan/SimpleScan.java:103-117 | a colour mode `call` settles itself is one of the scanner's colour modes; a resolution it settles itself is one of the scanner's discrete resolutions or its maximum |

## Left out

- `VersionProvider` is not part of this model. It only reads a version resource for `--version`.
- Command-line parsing and `main` are not modelled:
  - picocli and the exit call;
  - `--timeout`;
  - `--debug`;
  - the output file name.

  The options that matter (`-u`, `-c`, `-r`, `-i`) are constructor parameters.
- Nothing that prints to the console or the error stream is modelled:
  - the "Found scanner", "Selected scanner" and capability listings;
  - the debug output, including the echo of the received capability bytes in `parse`;
  - the draining of HTTP error streams.

  The announced labels are kept as a field instead.
- DNS-SD and JmDNS are inputs, not modelled. The services that discovery returned are an input.
- Network and file I/O are inputs. The model takes the capability document, the job reply and the `NextDocument` contents as given. It records the requests and the output file's contents instead of performing them.
  - The body of a 200 reply (`Response.body`) is always read in full: a failure while reading it, or while writing the output file, is not modelled. The `NextDocument` fetch is all or nothing (`None` when it fails), so a stream that fails part-way is not distinguished from one that fails at once.
  - A failure to write the request body is not modelled.
- XML parsing is left out: the capability document arrives as an abstract namespace-aware DOM tree, or as absent when it is not well-formed. `DocumentBuilder` is not modelled.
- The unused `DocumentBuilder` and `XPath` set up in the `SimpleScan` constructor are left out.
- UTF-8 decoding of TXT records is left out: keys and values stay bytes. Splitting at byte 0x3D gives the same parts as splitting the decoded string.
  - An announced label therefore holds bytes, not text.
  - Malformed UTF-8, which Java replaces with U+FFFD, is not modelled.
- `Numbers.ParseInt`: only ASCII digits are accepted. Java's `Integer.parseInt` also accepts other Unicode decimal digits.
- `Numbers.FormatInt`: `%d` is rendered with ASCII digits. A locale with other digits or grouping is not modelled.
- `new URL(...)` is modelled only as far as finding the protocol (`HasProtocol`), which fails with `MalformedUrl`. Not modelled: the lookup of a handler for the protocol (an unknown protocol also throws `MalformedURLException` in Java), non-ASCII letters in a scheme, and the rest of URL syntax. An absent `Location` header gives the text "null/NextDocument", which has no protocol, so it fails the same way.
- Getters, setters and `toString` of `Capabilities` are left out. So is the unmodifiable-list wrapping: the lists are immutable values here.
