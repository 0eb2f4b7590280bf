/** The WCT plugin (lib/plugin.ts): preparing the requested browser names,
    expanding them into capabilities appended to the run's active browsers,
    choosing how to start the Selenium server in `prepare`, and stamping the
    server's address onto every capability.

    The WCT context is reduced to what the plugin touches: its log channel
    (`wct`) and `wct.options.activeBrowsers`, held here as the field
    `activeBrowsers`. */
module Plugin {
  import opened Wrappers
  import opened Lists
  import opened Browsers
  import opened Selenium

  const Localhost := "127.0.0.1"

  /** The `url` the plugin gives a capability once the server has a port. */
  datatype Url = Url(hostname: string, port: nat)

  /** A browser definition of the run: a capability object whose `url` field
      `updatePort` sets in place. */
  class BrowserDef {
    var capability: Capability
    var url: Option<Url>

    constructor (c: Capability)
      ensures capability == c && url == None
    {
      capability := c;
      url := None;
    }
  }

  // ---------------------------------------------------------------------------
  // Name preparation in `configure`

  /** The names `configure` expands: the normalised `browsers` option, split at
      commas when there is any, and `["all"]` when neither this option nor
      another plugin named a browser. */
  function ConfigureNames(browsers: Option<seq<BrowserEntry>>, activeEmpty: bool): (r: seq<string>)
    ensures forall k :: 0 <= k < |r| ==> ',' !in r[k]
  {
    var names := Normalize(browsers);
    var split := if |names| > 0 then Split(Join(names, ","), ',') else names;
    if activeEmpty && split == [] then ["all"] else split
  }

  /** Every comma-separated token of every given name becomes a name of its
      own, in order. */
  lemma ConfigureNamesTokens(browsers: Option<seq<BrowserEntry>>, activeEmpty: bool)
    requires Normalize(browsers) != []
    ensures ConfigureNames(browsers, activeEmpty) == SplitEach(Normalize(browsers), ',')
  {
    SplitJoin(Normalize(browsers), ',');
  }

  /** Names without commas are kept as they are. */
  lemma ConfigureNamesKept(browsers: Option<seq<BrowserEntry>>, activeEmpty: bool)
    requires Normalize(browsers) != []
    requires forall k :: 0 <= k < |Normalize(browsers)| ==> ',' !in Normalize(browsers)[k]
    ensures ConfigureNames(browsers, activeEmpty) == Normalize(browsers)
  {
    SplitJoinRoundTrip(Normalize(browsers), ',');
  }

  /** `["all"]` is the default only when there are no active browsers and no
      names; with active browsers and no names there is nothing to expand. */
  lemma ConfigureNamesDefault(browsers: Option<seq<BrowserEntry>>, activeEmpty: bool)
    ensures Normalize(browsers) == [] && activeEmpty ==> ConfigureNames(browsers, activeEmpty) == ["all"]
    ensures ConfigureNames(browsers, activeEmpty) == [] <==> Normalize(browsers) == [] && !activeEmpty
  {
  }

  // ---------------------------------------------------------------------------
  // `configure` as written

  /** What a hook hands to its `done`: a `TypeError` the runtime raised, or
      the message string an operation reported. */
  datatype HookError = TypeError(message: string) | Reported(message: string)

  /** The `TypeError` `expand` raises when it calls the callback it was not
      given. */
  const DoneNotAFunction := "done is not a function"

  /** The `TypeError` `!eachCapabilities.length` raises when the list is
      undefined. */
  const LengthOfUndefined := "Cannot read property 'length' of undefined"

  /** What `configure` leaves behind: the error its promise rejects with, the
      closure variable `eachCapabilities` (`None` when it is `undefined`), and
      the capabilities appended to the active browsers. */
  datatype ConfigureEffect =
    ConfigureEffect(error: Option<HookError>, eachCapabilities: Option<seq<Capability>>, appended: seq<Capability>)

  /** `configure` as written, from the names onwards: `browsers.expand(names)`
      is called without its `done` callback. An unsupported request makes
      `expand` call `done(...)` at once and throw; any other request starts
      detection and returns `undefined`, which the `await` hands over as the
      expansion, so `eachCapabilities` becomes `undefined` and
      `push.apply(activeBrowsers, undefined)` appends nothing. `previous` is
      `eachCapabilities` before the call. */
  function ConfigureAsWritten(names: seq<string>, platformKeys: seq<string>,
                              previous: seq<Capability>): (r: ConfigureEffect)
    ensures r.appended == []
    ensures r.error.Some? ==> r.error.value.TypeError?
  {
    if names == [] then ConfigureEffect(None, Some(previous), [])
    else if Difference(Requested(names), Supported(platformKeys)) != [] then
      ConfigureEffect(Some(TypeError(DoneNotAFunction)), Some(previous), [])
    else ConfigureEffect(None, None, [])
  }

  /** The first line of `prepare`: whether it returns at once for want of
      local capabilities, or the exception reading the length raises. */
  function PrepareGuard(eachCapabilities: Option<seq<Capability>>): (r: Result<bool, HookError>)
    ensures r.Err? <==> eachCapabilities.None?
    ensures r.Err? ==> r.error == TypeError(LengthOfUndefined)
    ensures r.Ok? ==> (r.value <==> eachCapabilities.value == [])
  {
    if eachCapabilities.None? then Err(TypeError(LengthOfUndefined)) else Ok(|eachCapabilities.value| == 0)
  }

  /** As written, `configure` never appends an expanded browser, and where the
      expansion would succeed it leaves `eachCapabilities` `undefined` without
      an error, so the following `prepare` throws instead of starting a
      server. */
  lemma ConfigureAsWrittenDropsExpansion(names: seq<string>, platformKeys: seq<string>,
                                         enumeration: Result<seq<LaunchpadBrowser>, string>,
                                         previous: seq<Capability>)
    requires names != []
    ensures ConfigureAsWritten(names, platformKeys, previous).appended == []
    ensures Expand(names, platformKeys, enumeration).Ok? ==>
              && ConfigureAsWritten(names, platformKeys, previous).error == None
              && PrepareGuard(ConfigureAsWritten(names, platformKeys, previous).eachCapabilities) == Err(TypeError(LengthOfUndefined))
  {
    if Expand(names, platformKeys, enumeration).Ok? {
      assert Difference(Requested(names), Supported(platformKeys)) == [];
    }
  }

  /** As written, an unsupported request fails with the `TypeError` of the
      missing callback instead of `expand`'s message naming the browsers. */
  lemma ConfigureAsWrittenUnsupported(names: seq<string>, platformKeys: seq<string>,
                                      enumeration: Result<seq<LaunchpadBrowser>, string>,
                                      previous: seq<Capability>)
    requires names != [] && Difference(Requested(names), Supported(platformKeys)) != []
    ensures var unsupported := Difference(Requested(names), Supported(platformKeys));
            && Expand(names, platformKeys, enumeration) == Err(Unsupported(unsupported, Supported(platformKeys)))
            && ConfigureAsWritten(names, platformKeys, previous).error == Some(TypeError(DoneNotAFunction))
            && ConfigureAsWritten(names, platformKeys, previous).error !=
                 Some(Reported(Unsupported(unsupported, Supported(platformKeys)).Message()))
  {
  }

  /** The smallest request that shows it: chrome, supported and installed,
      expands to one capability, and as written none is appended. */
  lemma ConfigureAsWrittenAppendsNothing()
    ensures var bs := [LaunchpadBrowser("chrome", "51", "/usr/bin/chrome")];
            && Expand(["chrome"], ["chrome"], Ok(bs)).Ok?
            && |Expand(["chrome"], ["chrome"], Ok(bs)).value| == 1
            && ConfigureAsWritten(["chrome"], ["chrome"], []) == ConfigureEffect(None, None, [])
  {
    var bs := [LaunchpadBrowser("chrome", "51", "/usr/bin/chrome")];
    ExpandSuccess(["chrome"], ["chrome"], Ok(bs));
  }

  // ---------------------------------------------------------------------------
  // prepare

  /** How `prepare` proceeds. */
  datatype Launch = Skip | StartOnly | InstallAndStart

  /** Nothing to do without local capabilities; otherwise `skipSeleniumInstall`
      selects `startSeleniumServer` and its absence
      `installAndStartSeleniumServer`. */
  function PrepareChoice(localCount: nat, skipSeleniumInstall: Option<bool>): (c: Launch)
    ensures c == Skip <==> localCount == 0
    ensures c == StartOnly <==> localCount > 0 && skipSeleniumInstall == Some(true)
    ensures c == InstallAndStart <==> localCount > 0 && skipSeleniumInstall != Some(true)
  {
    if localCount == 0 then Skip
    else if skipSeleniumInstall == Some(true) then StartOnly
    else InstallAndStart
  }

  /** `updatePort(capabilities, port)`: every capability gets the local server's
      address and keeps everything else. */
  method UpdatePort(capabilities: seq<BrowserDef>, port: nat)
    modifies set d | d in capabilities
    ensures forall d :: d in capabilities ==> d.url == Some(Url(Localhost, port))
    ensures forall d :: d in capabilities ==> d.capability == old(d.capability)
  {
    for i := 0 to |capabilities|
      invariant forall j :: 0 <= j < i ==> capabilities[j].url == Some(Url(Localhost, port))
      invariant forall d :: d in capabilities ==> d.capability == old(d.capability)
    {
      capabilities[i].url := Some(Url(Localhost, port));
    }
  }

  /** One fresh browser definition per expanded capability, in order. */
  method NewBrowserDefs(caps: seq<Capability>) returns (defs: seq<BrowserDef>)
    ensures |defs| == |caps|
    ensures forall j :: 0 <= j < |caps| ==> fresh(defs[j]) && defs[j].capability == caps[j] && defs[j].url == None
  {
    defs := [];
    for i := 0 to |caps|
      invariant |defs| == i
      invariant forall j :: 0 <= j < i ==> fresh(defs[j]) && defs[j].capability == caps[j] && defs[j].url == None
    {
      var d := new BrowserDef(caps[i]);
      defs := defs + [d];
    }
  }

  /** The plugin instance for one run: its options and the closure variable
      `eachCapabilities`. */
  class Plugin {
    var seleniumArgs: Option<seq<string>>
    var skipSeleniumInstall: Option<bool>
    const browsers: Option<seq<BrowserEntry>>
    var eachCapabilities: seq<BrowserDef>
    var activeBrowsers: seq<BrowserDef>
    const wct: Wct

    constructor (wct: Wct, seleniumArgs: Option<seq<string>>, skipSeleniumInstall: Option<bool>,
                 browsers: Option<seq<BrowserEntry>>, activeBrowsers: seq<BrowserDef>)
      ensures this.wct == wct && this.seleniumArgs == seleniumArgs
      ensures this.skipSeleniumInstall == skipSeleniumInstall && this.browsers == browsers
      ensures this.activeBrowsers == activeBrowsers && eachCapabilities == []
    {
      this.wct := wct;
      this.seleniumArgs := seleniumArgs;
      this.skipSeleniumInstall := skipSeleniumInstall;
      this.browsers := browsers;
      this.activeBrowsers := activeBrowsers;
      eachCapabilities := [];
    }

    /** `configure()`: default the options, prepare the names, and when there
        are any, expand them; the expanded capabilities become
        `eachCapabilities` and are appended to the active browsers. An
        expansion error is returned and changes neither list. */
    method Configure(platformKeys: seq<string>, enumeration: Result<seq<LaunchpadBrowser>, string>)
      returns (err: Option<BrowsersError>)
      modifies this
      ensures seleniumArgs == Some(old(seleniumArgs).GetOr([]))
      ensures skipSeleniumInstall == Some(old(skipSeleniumInstall) == Some(true))
      ensures var names := ConfigureNames(browsers, old(activeBrowsers) == []);
              var expanded := Expand(names, platformKeys, enumeration);
              if names == [] || expanded.Err? then
                && err == (if names == [] then None else Some(expanded.error))
                && eachCapabilities == old(eachCapabilities)
                && activeBrowsers == old(activeBrowsers)
              else
                && err == None
                && |eachCapabilities| == |expanded.value|
                && (forall i :: 0 <= i < |eachCapabilities| ==>
                      && fresh(eachCapabilities[i])
                      && eachCapabilities[i].capability == expanded.value[i]
                      && eachCapabilities[i].url == None)
                && activeBrowsers == old(activeBrowsers) + eachCapabilities
    {
      seleniumArgs := Some(seleniumArgs.GetOr([]));
      skipSeleniumInstall := Some(skipSeleniumInstall == Some(true));
      var names := ConfigureNames(browsers, activeBrowsers == []);
      if names == [] {
        return None;
      }
      var expanded := Expand(names, platformKeys, enumeration);
      if expanded.Err? {
        return Some(expanded.error);
      }
      var defs := NewBrowserDefs(expanded.value);
      eachCapabilities := defs;
      activeBrowsers := activeBrowsers + defs;
      err := None;
    }

    /** The `prepare` hook, given the outcomes of the `prepare:selenium` hook,
        of the host facts the environment check reads, and of the server's
        collaborators. With no local capabilities nothing happens; otherwise
        the environment is checked, the chosen start variant runs (it checks
        the environment again), and on success every local capability gets
        the server's address. */
    method Prepare(hookError: Option<string>, host: HostFacts, freeport: Result<nat, string>,
                   installStep: StepOutcome, startStep: StepOutcome)
      returns (err: Option<string>, calls: seq<Call>)
      requires seleniumArgs.Some?
      modifies wct, set d | d in eachCapabilities
      ensures eachCapabilities == old(eachCapabilities)
      ensures forall d :: d in eachCapabilities ==> d.capability == old(d.capability)
      ensures var choice := PrepareChoice(|eachCapabilities|, skipSeleniumInstall);
              var run := StartRun(seleniumArgs.value, choice == InstallAndStart, None,
                                  freeport, installStep, startStep);
              if choice == Skip || hookError.Some? || CheckSeleniumEnvironment(host).Some? then
                && err == (if choice == Skip then None
                           else if hookError.Some? then hookError
                           else CheckSeleniumEnvironment(host))
                && calls == []
                && wct.emitted == old(wct.emitted)
                && forall d :: d in eachCapabilities ==> d.url == old(d.url)
              else
                && calls == run.calls
                && wct.emitted == old(wct.emitted) + [Announcement(choice == InstallAndStart)] + run.emitted
                && (run.result.Err? ==> err == Some(run.result.error) &&
                                        forall d :: d in eachCapabilities ==> d.url == old(d.url))
                && (run.result.Ok? ==> err == None &&
                                       forall d :: d in eachCapabilities ==> d.url == Some(Url(Localhost, run.result.value)))
    {
      var choice := PrepareChoice(|eachCapabilities|, skipSeleniumInstall);
      if choice == Skip {
        return None, [];
      }
      if hookError.Some? {
        return hookError, [];
      }
      var envError := CheckSeleniumEnvironment(host);
      if envError.Some? {
        return envError, [];
      }
      var result;
      result, calls := LaunchServer(wct, seleniumArgs.value, choice == InstallAndStart, host,
                                    freeport, installStep, startStep);
      if result.Err? {
        return Some(result.error), calls;
      }
      UpdatePort(eachCapabilities, result.value);
      err := None;
    }
  }
}
