/** The local-browser registry (lib/browsers.ts): the table from launchpad
    browser names to capability builders, the builders themselves, name
    normalisation, the supported set, detection of installed browsers, and the
    expansion of a requested name list into capabilities.

    The launchpad enumeration and the platform's browser keys are parameters:
    `enumeration` is what `launchpad.local` and `launcher.browsers` report (the
    browsers, or the error either of them passed back), `platformKeys` is
    `Object.keys(launchpad.local.platform)`. */
module Browsers {
  import opened Wrappers
  import opened Lists

  /** A browser as the launchpad enumeration describes it. */
  datatype LaunchpadBrowser = LaunchpadBrowser(name: string, version: string, binPath: string)

  /** The vendor-specific part of each family's capability object. */
  datatype VendorOptions =
    | ChromeOptions(binary: string, args: seq<string>)          // 'chromeOptions'
    | FirefoxOptions(firefoxBinary: string, marionette: bool)   // 'firefox_binary', 'marionette'
    | SafariOptions(skipExtensionInstallation: bool)            // 'safari.options'
    | NoOptions

  /** A WebDriver capabilities object. */
  datatype Capability = Capability(browserName: string, version: string, options: VendorOptions)

  /** The four builders of the converter table. */
  datatype Converter = Chrome | Firefox | Safari | InternetExplorer

  /** A browser entry handed to `normalize`: a plain name or an object with a
      `browserName`. */
  datatype BrowserEntry = Named(name: string) | Def(browserName: string)

  const UnsupportedHead := "The following browsers are unsupported: "
  const NotFoundHead := "The following browsers were not found: "

  datatype BrowsersError =
    | EnumerationFailed(reason: string)                  // error from launchpad
    | NoVersionDigits(browser: string, version: string)  // `version.match(/\d+/)` is null
    | Unsupported(unsupported: seq<string>, supported: seq<string>)
    | NotFound(missing: seq<string>, installed: seq<string>)
  {
    /** The message `expand` reports for its two validation failures. */
    function Message(): string {
      match this
      case Unsupported(u, s) =>
        UnsupportedHead + (Join(u, ", ") + ". " + "(All supported browsers: " + Join(s, ", ") + ")")
      case NotFound(m, i) =>
        NotFoundHead + (Join(m, ", ") + ". " + "(All installed browsers found: " + Join(i, ", ") + ")")
      case EnumerationFailed(reason) => reason
      case NoVersionDigits(b, v) => "no digits in the version of " + b + ": " + v
    }
  }

  /** The two validation messages of `expand` cannot be confused with each
      other, whatever the names: they part at the 24th character. */
  lemma ValidationMessagesDiffer(u: seq<string>, s: seq<string>, m: seq<string>, i: seq<string>)
    ensures Unsupported(u, s).Message() != NotFound(m, i).Message()
  {
    assert Unsupported(u, s).Message()[23] == UnsupportedHead[23] == 'a';
    assert NotFound(m, i).Message()[23] == NotFoundHead[23] == 'w';
  }

  /** The keys of LAUNCHPAD_TO_SELENIUM, in declaration order. */
  const ConverterNames: seq<string> := ["chrome", "canary", "firefox", "aurora", "ie", "safari"]

  /** LAUNCHPAD_TO_SELENIUM as a lookup: `canary` shares Chrome's builder and
      `aurora` Firefox's. */
  function ConverterFor(name: string): (r: Option<Converter>)
    ensures r.Some? <==> name in ConverterNames
  {
    if name == "chrome" || name == "canary" then Some(Chrome)
    else if name == "firefox" || name == "aurora" then Some(Firefox)
    else if name == "ie" then Some(InternetExplorer)
    else if name == "safari" then Some(Safari)
    else None
  }

  // ---------------------------------------------------------------------------
  // Version extraction: `version.match(/\d+/)[0]`

  /** `v` is the first maximal run of digits of `s`, and it starts at `i`. */
  ghost predicate IsFirstDigitRunAt(s: string, i: nat, v: string) {
    && v != []
    && i + |v| <= |s|
    && s[i..i + |v|] == v
    && AllDigits(v)
    && (forall k :: 0 <= k < i ==> !IsDigit(s[k]))
    && (i + |v| == |s| || !IsDigit(s[i + |v|]))
  }

  predicate HasDigit(s: string) {
    exists k :: 0 <= k < |s| && IsDigit(s[k])
  }

  /** The longest prefix of `s` made of digits. */
  function DigitPrefix(s: string): (r: string)
    ensures |r| <= |s| && r == s[..|r|]
    ensures AllDigits(r)
    ensures |r| == |s| || !IsDigit(s[|r|])
  {
    if s != [] && IsDigit(s[0]) then [s[0]] + DigitPrefix(s[1..]) else []
  }

  /** Index of the first digit of `s`, or |s| when there is none. */
  function FirstDigitIndex(s: string): (i: nat)
    ensures i <= |s|
    ensures forall k :: 0 <= k < i ==> !IsDigit(s[k])
    ensures i < |s| ==> IsDigit(s[i])
  {
    if s == [] then 0
    else if IsDigit(s[0]) then 0
    else 1 + FirstDigitIndex(s[1..])
  }

  /** What `s.match(/\d+/)` finds: the first maximal run of ASCII digits, or
      nothing (JavaScript's null) when `s` has no digit. */
  function FirstDigitRun(s: string): (r: Option<string>)
    ensures r.None? <==> !HasDigit(s)
    ensures r.Some? ==> exists i :: IsFirstDigitRunAt(s, i, r.value)
  {
    var i := FirstDigitIndex(s);
    if i == |s| then None
    else
      var v := DigitPrefix(s[i..]);
      assert s[i..][..|v|] == s[i..i + |v|];
      assert IsFirstDigitRunAt(s, i, v);
      Some(v)
  }

  /** The digit-run description fixes the run: no two different strings fit it. */
  lemma FirstDigitRunUnique(s: string, i: nat, v: string, j: nat, w: string)
    requires IsFirstDigitRunAt(s, i, v) && IsFirstDigitRunAt(s, j, w)
    ensures i == j && v == w
  {
    assert IsDigit(s[i..i + |v|][0]);
    assert IsDigit(s[j..j + |w|][0]);
    assert i == j;
    forall p | i <= p < i + |w| ensures IsDigit(s[p]) {
      assert s[j..j + |w|][p - i] == s[p];
    }
    forall p | i <= p < i + |v| ensures IsDigit(s[p]) {
      assert s[i..i + |v|][p - i] == s[p];
    }
    assert |v| == |w|;
  }

  // ---------------------------------------------------------------------------
  // Builders (Launchpad -> Selenium)

  /** `chrome(browser)`: chrome and canary. */
  function ChromeCapability(b: LaunchpadBrowser): (r: Result<Capability, BrowsersError>)
    ensures r.Ok? <==> HasDigit(b.version)
    ensures r.Err? ==> r.error == NoVersionDigits(b.name, b.version)
    ensures r.Ok? ==> && r.value.browserName == "chrome"
                      && (exists i :: IsFirstDigitRunAt(b.version, i, r.value.version))
                      && r.value.options == ChromeOptions(b.binPath, ["start-maximized"])
  {
    match FirstDigitRun(b.version)
    case None => Err(NoVersionDigits(b.name, b.version))
    case Some(v) => Ok(Capability("chrome", v, ChromeOptions(b.binPath, ["start-maximized"])))
  }

  /** `firefox(browser)`: firefox and aurora. */
  function FirefoxCapability(b: LaunchpadBrowser): (r: Result<Capability, BrowsersError>)
    ensures r.Ok? <==> HasDigit(b.version)
    ensures r.Err? ==> r.error == NoVersionDigits(b.name, b.version)
    ensures r.Ok? ==> && r.value.browserName == "firefox"
                      && (exists i :: IsFirstDigitRunAt(b.version, i, r.value.version))
                      && r.value.options == FirefoxOptions(b.binPath, true)
  {
    match FirstDigitRun(b.version)
    case None => Err(NoVersionDigits(b.name, b.version))
    case Some(v) => Ok(Capability("firefox", v, FirefoxOptions(b.binPath, true)))
  }

  /** `safari(browser)`: the version is passed through; no binary path. */
  function SafariCapability(b: LaunchpadBrowser): (r: Capability)
    ensures r.browserName == "safari" && r.version == b.version
    ensures r.options == SafariOptions(true)
  {
    Capability("safari", b.version, SafariOptions(true))
  }

  /** `internetExplorer(browser)`: the version is passed through. */
  function InternetExplorerCapability(b: LaunchpadBrowser): (r: Capability)
    ensures r.browserName == "internet explorer" && r.version == b.version
    ensures r.options == NoOptions
  {
    Capability("internet explorer", b.version, NoOptions)
  }

  /** Runs the builder the table selects. */
  function Build(conv: Converter, b: LaunchpadBrowser): (r: Result<Capability, BrowsersError>)
    ensures r.Err? <==> (conv == Chrome || conv == Firefox) && !HasDigit(b.version)
  {
    match conv
    case Chrome => ChromeCapability(b)
    case Firefox => FirefoxCapability(b)
    case Safari => Ok(SafariCapability(b))
    case InternetExplorer => Ok(InternetExplorerCapability(b))
  }

  /** Chrome 51 as launchpad reports it keeps only its major version. */
  lemma ChromeMajorVersion(binPath: string)
    ensures ChromeCapability(LaunchpadBrowser("chrome", "51.0.2704.103", binPath)).value.version == "51"
  {
    var s := "51.0.2704.103";
    var r := ChromeCapability(LaunchpadBrowser("chrome", s, binPath));
    assert IsDigit(s[0]);
    var i :| IsFirstDigitRunAt(s, i, r.value.version);
    assert IsFirstDigitRunAt(s, 0, "51");
    FirstDigitRunUnique(s, i, r.value.version, 0, "51");
  }

  // ---------------------------------------------------------------------------
  // normalize and supported

  function EntryName(e: BrowserEntry): string {
    match e
    case Named(n) => n
    case Def(n) => n
  }

  /** `normalize(browsers)`: each entry's name, in order; `browsers` missing
      (null or undefined) yields no names. */
  function Normalize(browsers: Option<seq<BrowserEntry>>): (r: seq<string>)
    ensures browsers.None? ==> r == []
    ensures browsers.Some? ==> |r| == |browsers.value|
    ensures browsers.Some? ==> forall i :: 0 <= i < |r| ==>
              match browsers.value[i]
              case Named(n) => r[i] == n
              case Def(n) => r[i] == n
  {
    match browsers
    case None => []
    case Some(bs) => seq(|bs|, i requires 0 <= i < |bs| => EntryName(bs[i]))
  }

  /** `supported()`: the platform's browser keys that have a builder, each once,
      in the platform's order. */
  function Supported(platformKeys: seq<string>): (r: seq<string>)
    ensures forall x :: x in r <==> x in platformKeys && x in ConverterNames
    ensures NoDuplicates(r)
    ensures forall i, j :: 0 <= i < j < |r| ==>
              FirstIndex(platformKeys, r[i]) < FirstIndex(platformKeys, r[j])
  {
    IntersectionOrdered(platformKeys, ConverterNames);
    Intersection(platformKeys, ConverterNames)
  }

  // ---------------------------------------------------------------------------
  // detect

  /** The `results` dictionary of `detect`: its keys in JavaScript's
      enumeration (first insertion) order, and the entries. */
  datatype Installed = Installed(keys: seq<string>, byName: map<string, Capability>) {
    ghost predicate Valid() {
      && NoDuplicates(keys)
      && (forall k :: k in keys <==> k in byName)
    }
  }

  function Names(bs: seq<LaunchpadBrowser>): (r: seq<string>)
    ensures |r| == |bs| && forall i :: 0 <= i < |bs| ==> r[i] == bs[i].name
  {
    seq(|bs|, i requires 0 <= i < |bs| => bs[i].name)
  }

  /** The dictionary `detect` has built after visiting `bs`: a browser without
      a builder is skipped, a later browser of the same name overwrites the
      entry but keeps its position, and a builder that throws ends detection. */
  function Detected(bs: seq<LaunchpadBrowser>): (r: Result<Installed, BrowsersError>)
    ensures r.Ok? ==> r.value.Valid()
    ensures r.Ok? ==> forall k :: k in r.value.byName ==> k in ConverterNames
    decreases |bs|
  {
    if bs == [] then Ok(Installed([], map[]))
    else
      match Detected(bs[..|bs| - 1])
      case Err(e) => Err(e)
      case Ok(acc) =>
        var b := bs[|bs| - 1];
        match ConverterFor(b.name)
        case None => Ok(acc)
        case Some(conv) =>
          match Build(conv, b)
          case Err(e) => Err(e)
          case Ok(cap) =>
            var keys := if b.name in acc.byName then acc.keys else acc.keys + [b.name];
            Ok(Installed(keys, acc.byName[b.name := cap]))
  }

  /** One step of detection: a successful run on `bs` succeeded on all but the
      last browser, and the last one either has no builder or sets its entry. */
  lemma DetectedStep(bs: seq<LaunchpadBrowser>)
    requires bs != [] && Detected(bs).Ok?
    ensures var init := bs[..|bs| - 1];
            var b := bs[|bs| - 1];
            && Detected(init).Ok?
            && (ConverterFor(b.name).None? ==> Detected(bs) == Detected(init))
            && (ConverterFor(b.name).Some? ==>
                  && Build(ConverterFor(b.name).value, b).Ok?
                  && Detected(bs).value.byName ==
                       Detected(init).value.byName[b.name := Build(ConverterFor(b.name).value, b).value])
  {
  }

  /** Detection fails exactly when some browser with a builder has a version the
      builder cannot read. */
  lemma {:induction false} DetectedFailsIff(bs: seq<LaunchpadBrowser>)
    ensures Detected(bs).Err? <==>
              exists i :: 0 <= i < |bs| && ConverterFor(bs[i].name).Some? &&
                          Build(ConverterFor(bs[i].name).value, bs[i]).Err?
  {
    if bs != [] {
      var init := bs[..|bs| - 1];
      DetectedFailsIff(init);
      if Detected(init).Err? {
        var i :| 0 <= i < |init| && ConverterFor(init[i].name).Some? &&
                 Build(ConverterFor(init[i].name).value, init[i]).Err?;
        assert bs[i] == init[i];
      } else {
        forall i | 0 <= i < |bs| - 1
          ensures !(ConverterFor(bs[i].name).Some? && Build(ConverterFor(bs[i].name).value, bs[i]).Err?)
        {
          assert bs[i] == init[i];
        }
      }
    }
  }

  /** The installed names are the enumerated names that have a builder, each
      once, in the order they were first enumerated: lodash's intersection of
      the enumerated names with the converter table. */
  lemma {:induction false} DetectedKeys(bs: seq<LaunchpadBrowser>)
    requires Detected(bs).Ok?
    ensures Detected(bs).value.keys == Intersection(Names(bs), ConverterNames)
    ensures forall k :: k in Detected(bs).value.byName <==> k in Names(bs) && k in ConverterNames
  {
    if bs != [] {
      var init := bs[..|bs| - 1];
      DetectedKeys(init);
      assert Names(bs)[..|bs| - 1] == Names(init);
    }
  }

  /** Each installed entry is built from the LAST enumerated browser of its name. */
  lemma {:induction false} DetectedEntries(bs: seq<LaunchpadBrowser>, k: string)
    requires Detected(bs).Ok? && k in Detected(bs).value.byName
    ensures k in Names(bs)
    ensures Build(ConverterFor(k).value, bs[LastIndex(Names(bs), k)]) == Ok(Detected(bs).value.byName[k])
  {
    var init := bs[..|bs| - 1];
    DetectedStep(bs);
    assert Names(bs)[|bs| - 1] == bs[|bs| - 1].name;
    if bs[|bs| - 1].name != k {
      assert k in Detected(init).value.byName && Detected(bs).value.byName[k] == Detected(init).value.byName[k];
      DetectedEntries(init, k);
      NamesOfPrefix(bs);
      var i := LastIndex(Names(init), k);
      assert bs[i] == init[i];
    }
  }

  /** The names of all but the last browser, and the last one's name. */
  lemma NamesOfPrefix(bs: seq<LaunchpadBrowser>)
    requires bs != []
    ensures Names(bs)[..|bs| - 1] == Names(bs[..|bs| - 1])
    ensures forall k :: k in Names(bs[..|bs| - 1]) && k != bs[|bs| - 1].name ==>
              LastIndex(Names(bs), k) == LastIndex(Names(bs[..|bs| - 1]), k)
  {
    assert Names(bs)[..|bs| - 1] == Names(bs[..|bs| - 1]);
  }

  /** What `detect` passes to its callback, given the enumeration's outcome. */
  function DetectResult(enumeration: Result<seq<LaunchpadBrowser>, string>): (r: Result<Installed, BrowsersError>)
    ensures enumeration.Err? ==> r == Err(EnumerationFailed(enumeration.error))
    ensures r.Ok? ==> r.value.Valid()
  {
    match enumeration
    case Err(e) => Err(EnumerationFailed(e))
    case Ok(bs) => Detected(bs)
  }

  /** `detect`: the `for` loop that fills `results` from the enumeration. */
  method Detect(enumeration: Result<seq<LaunchpadBrowser>, string>) returns (r: Result<Installed, BrowsersError>)
    ensures r == DetectResult(enumeration)
  {
    if enumeration.Err? {
      return Err(EnumerationFailed(enumeration.error));
    }
    var bs := enumeration.value;
    var keys: seq<string> := [];
    var results: map<string, Capability> := map[];
    for i := 0 to |bs|
      invariant Detected(bs[..i]) == Ok(Installed(keys, results))
    {
      assert bs[..i + 1][..i] == bs[..i];
      var b := bs[i];
      var conv := ConverterFor(b.name);
      if conv.None? {
        continue;
      }
      var built := Build(conv.value, b);
      if built.Err? {
        assert Detected(bs[..i + 1]) == Err(built.error);
        DetectedStopsAtError(bs, i + 1);
        return Err(built.error);
      }
      if b.name !in results {
        keys := keys + [b.name];
      }
      results := results[b.name := built.value];
    }
    assert bs[..|bs|] == bs;
    r := Ok(Installed(keys, results));
  }

  /** Once detection has failed on a prefix, it fails with the same error. */
  lemma {:induction false} DetectedStopsAtError(bs: seq<LaunchpadBrowser>, n: nat)
    requires n <= |bs| && Detected(bs[..n]).Err?
    ensures Detected(bs) == Detected(bs[..n])
    decreases |bs| - n
  {
    if n < |bs| {
      assert bs[..n + 1][..n] == bs[..n];
      DetectedStopsAtError(bs, n + 1);
    } else {
      assert bs[..n] == bs;
    }
  }

  // ---------------------------------------------------------------------------
  // expand

  /** The request after the `"all"` sentinel has been handled. */
  function Requested(names: seq<string>): (r: seq<string>)
    ensures "all" !in r
    ensures "all" !in names ==> r == names
  {
    if "all" in names then [] else names
  }

  /** `expand(names)`: validate against the supported names, detect, default
      to everything installed, validate against the installed names, then map
      each requested name to its capability. */
  function Expand(names: seq<string>, platformKeys: seq<string>,
                  enumeration: Result<seq<LaunchpadBrowser>, string>): (r: Result<seq<Capability>, BrowsersError>)
    ensures r.Ok? ==> && DetectResult(enumeration).Ok?
                      && forall i :: 0 <= i < |r.value| ==> r.value[i] in DetectResult(enumeration).value.byName.Values
  {
    var requested := Requested(names);
    var supported := Supported(platformKeys);
    var unsupported := Difference(requested, supported);
    if unsupported != [] then Err(Unsupported(unsupported, supported))
    else
      match DetectResult(enumeration)
      case Err(e) => Err(e)
      case Ok(installed) =>
        var wanted := if requested == [] then installed.keys else requested;
        var missing := Difference(wanted, installed.keys);
        if missing != [] then Err(NotFound(missing, installed.keys))
        else Ok(seq(|wanted|, i requires 0 <= i < |wanted| => installed.byName[wanted[i]]))
  }

  /** A request holding `"all"` anywhere behaves exactly as the empty request. */
  lemma ExpandAllIsEmpty(names: seq<string>, platformKeys: seq<string>,
                         enumeration: Result<seq<LaunchpadBrowser>, string>)
    requires "all" in names
    ensures Expand(names, platformKeys, enumeration) == Expand([], platformKeys, enumeration)
  {
  }

  /** A request naming unsupported browsers fails with exactly those names, in
      request order with repeats, whatever detection would report: detection
      is not consulted. */
  lemma ExpandUnsupported(names: seq<string>, platformKeys: seq<string>,
                          enumeration: Result<seq<LaunchpadBrowser>, string>, other: Result<seq<LaunchpadBrowser>, string>)
    requires "all" !in names
    requires exists n :: n in names && n !in Supported(platformKeys)
    ensures Expand(names, platformKeys, enumeration) ==
              Err(Unsupported(Difference(names, Supported(platformKeys)), Supported(platformKeys)))
    ensures Expand(names, platformKeys, enumeration) == Expand(names, platformKeys, other)
  {
  }

  /** The empty request yields every installed browser, in detection order. */
  lemma ExpandDefault(platformKeys: seq<string>, enumeration: Result<seq<LaunchpadBrowser>, string>)
    requires DetectResult(enumeration).Ok?
    ensures var inst := DetectResult(enumeration).value;
            && Expand([], platformKeys, enumeration).Ok?
            && |Expand([], platformKeys, enumeration).value| == |inst.keys|
            && forall i :: 0 <= i < |inst.keys| ==>
                 Expand([], platformKeys, enumeration).value[i] == inst.byName[inst.keys[i]]
  {
  }

  /** A supported request naming browsers that are not installed fails with
      exactly the missing names, in request order with repeats. */
  lemma ExpandNotFound(names: seq<string>, platformKeys: seq<string>,
                       enumeration: Result<seq<LaunchpadBrowser>, string>)
    requires "all" !in names
    requires forall n :: n in names ==> n in Supported(platformKeys)
    requires DetectResult(enumeration).Ok?
    requires exists n :: n in names && n !in DetectResult(enumeration).value.byName
    ensures var inst := DetectResult(enumeration).value;
            Expand(names, platformKeys, enumeration) == Err(NotFound(Difference(names, inst.keys), inst.keys))
  {
    var inst := DetectResult(enumeration).value;
    var n :| n in names && n !in inst.byName;
    assert n in Difference(names, inst.keys);
  }

  /** An explicit request of supported, installed names succeeds and yields,
      position by position, the installed capability of the requested name;
      repeated names give repeated entries. */
  lemma ExpandSuccess(names: seq<string>, platformKeys: seq<string>,
                      enumeration: Result<seq<LaunchpadBrowser>, string>)
    requires "all" !in names && names != []
    requires forall n :: n in names ==> n in Supported(platformKeys)
    requires DetectResult(enumeration).Ok?
    requires forall n :: n in names ==> n in DetectResult(enumeration).value.byName
    ensures var inst := DetectResult(enumeration).value;
            && Expand(names, platformKeys, enumeration).Ok?
            && |Expand(names, platformKeys, enumeration).value| == |names|
            && forall i :: 0 <= i < |names| ==>
                 Expand(names, platformKeys, enumeration).value[i] == inst.byName[names[i]]
  {
    assert Difference(names, Supported(platformKeys)) == [];
    assert Difference(names, DetectResult(enumeration).value.keys) == [];
  }

  /** `expand` succeeds exactly when nothing requested is unsupported, detection
      succeeds and nothing requested is missing. */
  lemma ExpandSucceedsIff(names: seq<string>, platformKeys: seq<string>,
                          enumeration: Result<seq<LaunchpadBrowser>, string>)
    ensures Expand(names, platformKeys, enumeration).Ok? <==>
              && (forall n :: n in Requested(names) ==> n in Supported(platformKeys))
              && DetectResult(enumeration).Ok?
              && (forall n :: n in Requested(names) ==> n in DetectResult(enumeration).value.byName)
  {
  }
}
