/**
 * Launch options: one platform, one architecture and parameters, read from a map
 * whose iteration order is arbitrary.
 */
module Options {
  import opened GoStrings
  import opened Wrappers
  import opened JobParams

  const PLATFORMS: set<string> := {
    "aws", "gcp", "azure", "vsphere", "metal", "ovirt", "openstack", "hypershift-hosted", "nutanix", "alibaba",
    "hypershift-hosted-powervs", "azure-stackhub"}
  const ARCHITECTURES: set<string> := {"amd64", "arm64", "multi"}
  const PARAMETERS: set<string> := {
    "ovn", "ovn-hybrid", "proxy", "compact", "fips", "mirror", "shared-vpc", "large", "xlarge", "ipv4", "ipv6",
    "dualstack", "dualstack-primaryv6", "preserve-bootstrap", "test", "rt", "single-node", "techpreview",
    "devpreview", "upi", "nfv", "kuryr", "sdn", "no-spot", "no-capabilities", "virtualization-support",
    "multi-zone", "multi-zone-techpreview", "bundle", "private", "static"}

  /** The words an option may be; the parse does not depend on which words they are. */
  datatype Vocabulary = Vocabulary(platforms: set<string>, architectures: set<string>, parameters: set<string>)

  const SUPPORTED := Vocabulary(PLATFORMS, ARCHITECTURES, PARAMETERS)

  predicate NoEmptyWord(v: Vocabulary) {
    "" !in v.platforms && "" !in v.architectures && "" !in v.parameters
  }

  datatype Choice = Choice(platform: string, architecture: string, params: Params)

  /** How a parse ends. The source indexes the first input without looking, which panics on an empty one. */
  datatype Parsed = Chosen(choice: Choice) | Refused | Panicked

  /** Whether a launch without a platform goes to hypershift. */
  datatype Hosting = Hosted | NotHosted | OutOfRange

  predicate NormalLaunch(jobType: string) {
    jobType == "install" || jobType == "launch"
  }

  /** Only normal launches of supported versions; the names of moving releases stand for the current one. */
  function HostingOf(inputs: seq<seq<string>>, jobType: string, versions: set<string>, current: string): Hosting {
    if !NormalLaunch(jobType) then NotHosted
    else if |inputs| == 1 && inputs[0] == [] && versions != {} then OutOfRange
    else if |inputs| == 1 && exists v :: v in versions && HasPrefix(inputs[0][0], v) then Hosted
    else if current !in versions then NotHosted
    else if inputs == [] then Hosted
    else if inputs[0] == [] then OutOfRange
    else if inputs[0][0] == "nightly" || inputs[0][0] == "ci" || inputs[0][0] == "prerelease" then Hosted
    else NotHosted
  }

  function DefaultPlatform(architecture: string, hosting: Hosting): Option<string> {
    if architecture == "" || architecture == "multi" then Some(if hosting.Hosted? then "hypershift-hosted" else "aws")
    else if architecture == "amd64" || architecture == "arm64" then Some("aws")
    else None
  }

  /** The end of the parse: defaults, and the multi-arch rule. */
  function Complete(platform: string, architecture: string, params: Params, hosting: Hosting): Parsed {
    if platform == "" && (architecture == "" || architecture == "multi") && hosting.OutOfRange? then Panicked
    else
      var chosen := if platform == "" then DefaultPlatform(architecture, hosting) else Some(platform);
      if chosen.None? then Refused
      else
        var arch := if architecture != "" then architecture
                    else if chosen.value == "hypershift-hosted" then "multi" else "amd64";
        if arch != "multi" && chosen.value == "hypershift-hosted" then Refused
        else Chosen(Choice(chosen.value, arch, params))
  }

  // ----- what the options mean, without any order -----

  function PlatformsIn(v: Vocabulary, params: Params): set<string> {
    params.Keys * v.platforms
  }

  function ArchitecturesIn(v: Vocabulary, params: Params): set<string> {
    (params.Keys - v.platforms) * v.architectures
  }

  predicate Acceptable(v: Vocabulary, params: Params) {
    && |PlatformsIn(v, params)| <= 1
    && |ArchitecturesIn(v, params)| <= 1
    && params.Keys <= v.platforms + v.architectures + v.parameters + {""}
  }

  /** The only word of a set, or "". */
  ghost function Only(words: set<string>): string {
    if words == {} then "" else var w :| w in words; w
  }

  /** What the loop has gathered. */
  datatype Scan = Scan(platform: string, architecture: string, params: Params)

  ghost function Reading(v: Vocabulary, params: Params): Scan {
    Scan(Only(PlatformsIn(v, params)), Only(ArchitecturesIn(v, params)),
         params - (PlatformsIn(v, params) + ArchitecturesIn(v, params) + {""}))
  }

  ghost function Meaning(v: Vocabulary, params: Params, hosting: Hosting): Parsed {
    if !Acceptable(v, params) then Refused
    else var r := Reading(v, params); Complete(r.platform, r.architecture, r.params, hosting)
  }

  lemma TwoElements(s: set<string>, a: string, b: string)
    requires a in s && b in s && a != b
    ensures |s| >= 2
  {
    assert s == {a} + (s - {a});
    assert b in s - {a};
  }

  datatype Word = PlatformWord | ArchitectureWord | EmptyWord | ParameterWord | Unknown

  /** The kind of an option, by the first list that has it. */
  function Kind(v: Vocabulary, opt: string): Word {
    if opt in v.platforms then PlatformWord
    else if opt in v.architectures then ArchitectureWord
    else if opt == "" then EmptyWord
    else if opt in v.parameters then ParameterWord
    else Unknown
  }

  /** One turn of the loop; `None` when the options are refused. */
  function Take(v: Vocabulary, s: Scan, opt: string): Option<Scan> {
    match Kind(v, opt)
    case PlatformWord => if s.platform != "" then None else Some(s.(platform := opt, params := s.params - {opt}))
    case ArchitectureWord =>
      if s.architecture != "" then None else Some(s.(architecture := opt, params := s.params - {opt}))
    case EmptyWord => Some(s.(params := s.params - {opt}))
    case ParameterWord => Some(s)
    case Unknown => None
  }

  /** `word` is the only one of its kind in `seen`, and "" stands for none. */
  ghost predicate OnlyOfKind(v: Vocabulary, seen: set<string>, kind: Word, word: string) {
    && (forall w :: w in seen && Kind(v, w) == kind ==> w == word)
    && (word != "" ==> word in seen && Kind(v, word) == kind)
  }

  ghost predicate Left(v: Vocabulary, given: Params, seen: set<string>, params: Params) {
    && (forall k :: k in params <==> k in given && (k in seen ==> Kind(v, k) == ParameterWord))
    && (forall k :: k in params ==> params[k] == given[k])
  }

  ghost predicate Scanned(v: Vocabulary, given: Params, seen: set<string>, s: Scan) {
    && (forall w :: w in seen ==> Kind(v, w) != Unknown)
    && OnlyOfKind(v, seen, PlatformWord, s.platform)
    && OnlyOfKind(v, seen, ArchitectureWord, s.architecture)
    && Left(v, given, seen, s.params)
  }

  lemma TakeKeeps(v: Vocabulary, given: Params, seen: set<string>, s: Scan, opt: string)
    requires NoEmptyWord(v) && Scanned(v, given, seen, s)
    requires seen <= given.Keys && opt in given && opt !in seen
    ensures Take(v, s, opt).Some? ==> Scanned(v, given, seen + {opt}, Take(v, s, opt).value)
    ensures Take(v, s, opt).None? ==> !Acceptable(v, given)
  {
    if Take(v, s, opt).None? {
      match Kind(v, opt)
      case PlatformWord => TwoElements(PlatformsIn(v, given), s.platform, opt);
      case ArchitectureWord => TwoElements(ArchitecturesIn(v, given), s.architecture, opt);
      case Unknown =>
    }
  }

  lemma OnlyPlatform(v: Vocabulary, given: Params, s: Scan)
    requires NoEmptyWord(v) && Scanned(v, given, given.Keys, s)
    ensures |PlatformsIn(v, given)| <= 1 && s.platform == Only(PlatformsIn(v, given))
  {
    assert PlatformsIn(v, given) == if s.platform == "" then {} else {s.platform};
  }

  lemma OnlyArchitecture(v: Vocabulary, given: Params, s: Scan)
    requires NoEmptyWord(v) && Scanned(v, given, given.Keys, s)
    ensures |ArchitecturesIn(v, given)| <= 1 && s.architecture == Only(ArchitecturesIn(v, given))
  {
    assert ArchitecturesIn(v, given) == if s.architecture == "" then {} else {s.architecture};
  }

  lemma AllScanned(v: Vocabulary, given: Params, s: Scan)
    requires NoEmptyWord(v) && Scanned(v, given, given.Keys, s)
    ensures given.Keys <= v.platforms + v.architectures + v.parameters + {""}
    ensures s.params == given - (PlatformsIn(v, given) + ArchitecturesIn(v, given) + {""})
  {
    var rest := given - (PlatformsIn(v, given) + ArchitecturesIn(v, given) + {""});
    assert forall k :: k in given ==> Kind(v, k) != Unknown;
    assert s.params.Keys == rest.Keys;
  }

  lemma ScanIsReading(v: Vocabulary, given: Params, s: Scan)
    requires NoEmptyWord(v) && Scanned(v, given, given.Keys, s)
    ensures Acceptable(v, given) && s == Reading(v, given)
  {
    OnlyPlatform(v, given, s);
    OnlyArchitecture(v, given, s);
    AllScanned(v, given, s);
  }

  /** The loop as a fold over one particular order. */
  function TakeAll(v: Vocabulary, s: Scan, order: seq<string>): Option<Scan>
    decreases |order|
  {
    if order == [] then Some(s)
    else
      var next := Take(v, s, order[0]);
      if next.None? then None else TakeAll(v, next.value, order[1..])
  }

  ghost predicate Enumerates(order: seq<string>, words: set<string>) {
    (forall w :: w in order <==> w in words) && forall i, j :: 0 <= i < j < |order| ==> order[i] != order[j]
  }

  lemma EnumeratesTail(order: seq<string>, words: set<string>)
    requires Enumerates(order, words) && order != []
    ensures order[0] in words && Enumerates(order[1..], words - {order[0]})
  {
    assert order[0] in order;
    forall w ensures w in order[1..] <==> w in words - {order[0]} {
      if w in words - {order[0]} {
        assert w in order;
        var i :| 0 <= i < |order| && order[i] == w;
        assert order[1..][i - 1] == w;
      }
      if w in order[1..] {
        var i :| 0 <= i < |order[1..]| && order[1..][i] == w;
        assert order[i + 1] == w && w in order;
      }
    }
  }

  lemma {:induction false} TakeAllFrom(v: Vocabulary, given: Params, seen: set<string>, todo: set<string>, s: Scan,
                                       order: seq<string>)
    requires NoEmptyWord(v) && Scanned(v, given, seen, s)
    requires seen + todo == given.Keys && seen !! todo && Enumerates(order, todo)
    ensures TakeAll(v, s, order) == if Acceptable(v, given) then Some(Reading(v, given)) else None
    decreases |order|
  {
    if order == [] {
      assert forall w :: w in todo ==> w in order;
      assert seen == given.Keys;
      ScanIsReading(v, given, s);
    } else {
      EnumeratesTail(order, todo);
      TakeKeeps(v, given, seen, s, order[0]);
      var next := Take(v, s, order[0]);
      if next.Some? {
        TakeAllFrom(v, given, seen + {order[0]}, todo - {order[0]}, next.value, order[1..]);
      }
    }
  }

  /** No iteration order changes the outcome of the loop. */
  lemma OrderIrrelevant(v: Vocabulary, given: Params, order: seq<string>)
    requires NoEmptyWord(v) && Enumerates(order, given.Keys)
    ensures TakeAll(v, Scan("", "", given), order) == if Acceptable(v, given) then Some(Reading(v, given)) else None
  {
    TakeAllFrom(v, given, {}, given.Keys, Scan("", "", given), order);
  }

  lemma SupportedWords()
    ensures NoEmptyWord(SUPPORTED)
  {
  }

  /** The loop over the options, in whatever order the map is iterated. */
  method ParseWords(v: Vocabulary, given: Params) returns (result: Option<Scan>)
    requires NoEmptyWord(v)
    ensures result == if Acceptable(v, given) then Some(Reading(v, given)) else None
  {
    var s := Scan("", "", given);
    var todo := given.Keys;
    ghost var seen: set<string> := {};
    while todo != {}
      invariant seen + todo == given.Keys && seen !! todo
      invariant Scanned(v, given, seen, s)
      decreases |todo|
    {
      var opt :| opt in todo;
      TakeKeeps(v, given, seen, s, opt);
      var next := Take(v, s, opt);
      if next.None? {
        return None;
      }
      s := next.value;
      seen := seen + {opt};
      todo := todo - {opt};
    }
    assert seen == given.Keys;
    ScanIsReading(v, given, s);
    result := Some(s);
  }

  /** Every iteration order gives the same answer: the order-free meaning of the options. */
  method ParseOptions(options: string, inputs: seq<seq<string>>, jobType: string, versions: set<string>,
                      current: string)
    returns (result: Parsed)
    ensures var parsed := Parse(options);
            result == if parsed.None? then Refused
                      else Meaning(SUPPORTED, parsed.value, HostingOf(inputs, jobType, versions, current))
  {
    SupportedWords();
    result := ParseWith(SUPPORTED, options, HostingOf(inputs, jobType, versions, current));
  }

  method ParseWith(v: Vocabulary, options: string, hosting: Hosting) returns (result: Parsed)
    requires NoEmptyWord(v)
    ensures var parsed := Parse(options);
            result == if parsed.None? then Refused else Meaning(v, parsed.value, hosting)
  {
    var parsed := ParamsFromAnnotation(options);
    if parsed.None? {
      return Refused;
    }
    var words := ParseWords(v, parsed.value);
    if words.None? {
      return Refused;
    }
    result := Complete(words.value.platform, words.value.architecture, words.value.params, hosting);
  }

  /** The parse runs into an empty first input exactly when it has to look at it. */
  lemma OutOfRangeIff(inputs: seq<seq<string>>, jobType: string, versions: set<string>, current: string)
    ensures HostingOf(inputs, jobType, versions, current).OutOfRange? <==>
              && NormalLaunch(jobType) && inputs != [] && inputs[0] == []
              && (current in versions || (|inputs| == 1 && versions != {}))
  {
  }

  lemma CompleteFailsIff(platform: string, architecture: string, params: Params, hosting: Hosting)
    ensures Complete(platform, architecture, params, hosting).Refused? <==>
              || (platform == "" && architecture !in ["", "amd64", "arm64", "multi"])
              || (platform == "hypershift-hosted" && architecture !in ["", "multi"])
  {
  }

  /** Accepted words fail in two ways only: an architecture without a default platform, and hypershift off `multi`. */
  lemma ChoiceFailsIff(v: Vocabulary, params: Params, hosting: Hosting)
    requires Acceptable(v, params)
    ensures var platform, architecture := Only(PlatformsIn(v, params)), Only(ArchitecturesIn(v, params));
            Meaning(v, params, hosting).Refused? <==>
              || (platform == "" && architecture !in ["", "amd64", "arm64", "multi"])
              || (platform == "hypershift-hosted" && architecture !in ["", "multi"])
  {
    var r := Reading(v, params);
    CompleteFailsIff(r.platform, r.architecture, r.params, hosting);
  }

  /** What success promises, whatever the options were. */
  lemma ChoiceIsSupported(v: Vocabulary, params: Params, hosting: Hosting)
    requires NoEmptyWord(v)
    ensures var c := Meaning(v, params, hosting);
            c.Chosen? ==>
              && c.choice.params.Keys <= v.parameters
              && (forall k :: k in c.choice.params ==> k in params && c.choice.params[k] == params[k])
              && c.choice.platform in v.platforms + {"aws", "hypershift-hosted"}
              && c.choice.architecture in v.architectures + {"amd64", "multi"}
              && (c.choice.platform == "hypershift-hosted" ==> c.choice.architecture == "multi")
  {
    var c := Meaning(v, params, hosting);
    if c.Chosen? {
      var ps, archs := PlatformsIn(v, params), ArchitecturesIn(v, params);
      assert ps != {} ==> Only(ps) in ps;
      assert archs != {} ==> Only(archs) in archs;
    }
  }

  lemma CompleteHypershiftIff(platform: string, architecture: string, params: Params, hosting: Hosting)
    ensures var c := Complete(platform, architecture, params, hosting);
            c.Chosen? && c.choice.platform == "hypershift-hosted" <==>
              && (architecture == "" || architecture == "multi")
              && (platform == "hypershift-hosted" || (platform == "" && hosting.Hosted?))
  {
  }

  /** A word other than "" is the only one exactly when the set is that word. */
  lemma OnlyWord(words: set<string>, word: string)
    requires |words| <= 1 && "" !in words
    ensures Only(words) == "" <==> words == {}
    ensures word != "" ==> (Only(words) == word <==> words == {word})
  {
    OnlyIs(words);
  }

  /** Which launches go to hypershift: those that name it, and those that name no platform where it is served. */
  lemma HypershiftIff(v: Vocabulary, params: Params, hosting: Hosting)
    requires NoEmptyWord(v) && Acceptable(v, params)
    ensures var c := Meaning(v, params, hosting);
            var platforms, architectures := PlatformsIn(v, params), ArchitecturesIn(v, params);
            c.Chosen? && c.choice.platform == "hypershift-hosted" <==>
              && (architectures == {} || architectures == {"multi"})
              && (platforms == {"hypershift-hosted"} || (platforms == {} && hosting.Hosted?))
  {
    var r := Reading(v, params);
    CompleteHypershiftIff(r.platform, r.architecture, r.params, hosting);
    OnlyWord(PlatformsIn(v, params), "hypershift-hosted");
    OnlyWord(ArchitecturesIn(v, params), "multi");
  }

  lemma OnlyIs(words: set<string>)
    requires |words| <= 1
    ensures words == {} || words == {Only(words)}
  {
    if words != {} {
      assert |words - {Only(words)}| == 0;
    }
  }

  lemma CompletePanicsIff(platform: string, architecture: string, params: Params, hosting: Hosting)
    ensures Complete(platform, architecture, params, hosting).Panicked? <==>
              platform == "" && (architecture == "" || architecture == "multi") && hosting.OutOfRange?
  {
  }

  lemma MeaningPanicsIff(v: Vocabulary, params: Params, hosting: Hosting)
    requires NoEmptyWord(v)
    ensures var architectures := ArchitecturesIn(v, params);
            Meaning(v, params, hosting).Panicked? <==>
              && Acceptable(v, params) && PlatformsIn(v, params) == {}
              && (architectures == {} || architectures == {"multi"}) && hosting.OutOfRange?
  {
    if Acceptable(v, params) {
      var r := Reading(v, params);
      CompletePanicsIff(r.platform, r.architecture, r.params, hosting);
      OnlyWord(PlatformsIn(v, params), "");
      OnlyWord(ArchitecturesIn(v, params), "multi");
    }
  }

  /** The parse panics exactly on options that leave the platform to the version when the first input is empty. */
  lemma PanicsIff(v: Vocabulary, params: Params, inputs: seq<seq<string>>, jobType: string, versions: set<string>,
                  current: string)
    requires NoEmptyWord(v)
    ensures var architectures := ArchitecturesIn(v, params);
            Meaning(v, params, HostingOf(inputs, jobType, versions, current)).Panicked? <==>
              && Acceptable(v, params) && PlatformsIn(v, params) == {}
              && (architectures == {} || architectures == {"multi"})
              && NormalLaunch(jobType) && inputs != [] && inputs[0] == []
              && (current in versions || (|inputs| == 1 && versions != {}))
  {
    OutOfRangeIff(inputs, jobType, versions, current);
    MeaningPanicsIff(v, params, HostingOf(inputs, jobType, versions, current));
  }

  // ----- what comes back -----

  /** The named platform and architecture, or the defaults. */
  ghost predicate Picks(platforms: set<string>, architectures: set<string>, hosting: Hosting, c: Choice) {
    var served := hosting.Hosted? && (architectures == {} || architectures == {"multi"});
    && (platforms == {} ==> c.platform == if served then "hypershift-hosted" else "aws")
    && (platforms != {} ==> platforms == {c.platform})
    && (architectures == {} ==> c.architecture == if c.platform == "hypershift-hosted" then "multi" else "amd64")
    && (architectures != {} ==> architectures == {c.architecture})
  }

  /** Exactly the other options, with their values. */
  ghost predicate Leaves(v: Vocabulary, params: Params, left: Params) {
    && (forall k :: k in left <==> k in params && k !in v.platforms && k !in v.architectures && k != "")
    && (forall k :: k in left ==> left[k] == params[k])
  }

  /** A platform has to be found without looking past the inputs, and hypershift needs `multi`. */
  ghost predicate Serves(v: Vocabulary, params: Params, hosting: Hosting) {
    var platforms, architectures := PlatformsIn(v, params), ArchitecturesIn(v, params);
    && (platforms == {} ==>
          || architectures == {"amd64"} || architectures == {"arm64"}
          || ((architectures == {} || architectures == {"multi"}) && !hosting.OutOfRange?))
    && (platforms == {"hypershift-hosted"} ==> architectures == {} || architectures == {"multi"})
  }

  lemma CompleteIff(platform: string, architecture: string, params: Params, hosting: Hosting, c: Choice)
    ensures Complete(platform, architecture, params, hosting) == Chosen(c) <==>
              && c.params == params
              && (platform != "" ==> c.platform == platform)
              && (platform == "" ==>
                    && architecture in ["", "amd64", "arm64", "multi"]
                    && (architecture in ["", "multi"] ==> !hosting.OutOfRange?)
                    && c.platform == if hosting.Hosted? && architecture in ["", "multi"] then "hypershift-hosted"
                                     else "aws")
              && (platform == "hypershift-hosted" ==> architecture in ["", "multi"])
              && (architecture != "" ==> c.architecture == architecture)
              && (architecture == "" ==>
                    c.architecture == if c.platform == "hypershift-hosted" then "multi" else "amd64")
  {
  }

  lemma SameParams(v: Vocabulary, params: Params, left: Params)
    ensures left == Reading(v, params).params <==> Leaves(v, params, left)
  {
  }

  lemma ServesIff(v: Vocabulary, params: Params, hosting: Hosting)
    requires NoEmptyWord(v) && Acceptable(v, params)
    ensures var platform, architecture := Only(PlatformsIn(v, params)), Only(ArchitecturesIn(v, params));
            Serves(v, params, hosting) <==>
              && (platform == "" ==>
                    && architecture in ["", "amd64", "arm64", "multi"]
                    && (architecture in ["", "multi"] ==> !hosting.OutOfRange?))
              && (platform == "hypershift-hosted" ==> architecture in ["", "multi"])
  {
    OnlyWord(PlatformsIn(v, params), "hypershift-hosted");
    OnlyWord(ArchitecturesIn(v, params), "multi");
    OnlyWord(ArchitecturesIn(v, params), "amd64");
    OnlyWord(ArchitecturesIn(v, params), "arm64");
  }

  lemma PicksIff(platforms: set<string>, architectures: set<string>, hosting: Hosting, c: Choice)
    requires |platforms| <= 1 && |architectures| <= 1 && "" !in platforms && "" !in architectures
    ensures var platform, architecture := Only(platforms), Only(architectures);
            Picks(platforms, architectures, hosting, c) <==>
              && (platform != "" ==> c.platform == platform)
              && (platform == "" ==>
                    c.platform == if hosting.Hosted? && architecture in ["", "multi"] then "hypershift-hosted"
                                  else "aws")
              && (architecture != "" ==> c.architecture == architecture)
              && (architecture == "" ==>
                    c.architecture == if c.platform == "hypershift-hosted" then "multi" else "amd64")
  {
    OnlyIs(platforms);
    OnlyIs(architectures);
    OnlyWord(architectures, "multi");
  }

  /**
   * Options are answered exactly when they are acceptable and can be served: with the platform and the
   * architecture they name, or the defaults, and with exactly the other options as parameters.
   */
  lemma ChosenIff(v: Vocabulary, params: Params, hosting: Hosting, c: Choice)
    requires NoEmptyWord(v)
    ensures Meaning(v, params, hosting) == Chosen(c) <==>
              && Acceptable(v, params) && Serves(v, params, hosting)
              && Picks(PlatformsIn(v, params), ArchitecturesIn(v, params), hosting, c)
              && Leaves(v, params, c.params)
  {
    if Acceptable(v, params) {
      var r := Reading(v, params);
      CompleteIff(r.platform, r.architecture, r.params, hosting, c);
      ServesIff(v, params, hosting);
      PicksIff(PlatformsIn(v, params), ArchitecturesIn(v, params), hosting, c);
      SameParams(v, params, c.params);
    }
  }

  /**
   * Hypershift serves installs and launches of one input that starts with a supported version, and, when the
   * current version is supported, those without inputs or whose first is the name of a moving release.
   */
  lemma HostedIff(inputs: seq<seq<string>>, jobType: string, versions: set<string>, current: string)
    ensures HostingOf(inputs, jobType, versions, current).Hosted? <==>
              && (jobType == "install" || jobType == "launch")
              && (|| (|inputs| == 1 && inputs[0] != [] && exists v :: v in versions && v <= inputs[0][0])
                  || (current in versions && inputs == [])
                  || (current in versions && inputs[0] != [] && inputs[0][0] in ["nightly", "ci", "prerelease"]))
  {
  }
}
