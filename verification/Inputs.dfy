/** Job inputs: pull requests are grouped by repository beside at most one image or version. */
module Inputs {
  import opened GoStrings
  import opened Wrappers

  datatype Pull = Pull(number: nat, sha: string, author: string)

  datatype Refs = Refs(org: string, repo: string, baseRef: string, baseSHA: string, pulls: seq<Pull>)

  /** What one part of an input resolves to. */
  datatype Part =
    | PullRequest(refs: Refs)
    | Release(image: string, version: string, runImage: string)
    | Unresolved

  datatype JobInput = JobInput(image: string, version: string, runImage: string, refs: seq<Refs>)

  predicate SameRepo(a: Refs, b: Refs) {
    a.org == b.org && a.repo == b.repo
  }

  /** A pull request joins the entry of its repository, or opens one at the end. */
  function AddPull(refs: seq<Refs>, pr: Refs): seq<Refs> {
    if refs == [] then [pr]
    else if SameRepo(refs[0], pr) then [refs[0].(pulls := refs[0].pulls + pr.pulls)] + refs[1..]
    else [refs[0]] + AddPull(refs[1..], pr)
  }

  method AppendPull(refs: seq<Refs>, pr: Refs) returns (result: seq<Refs>)
    ensures result == AddPull(refs, pr)
  {
    var i := 0;
    while i < |refs|
      invariant i <= |refs|
      invariant AddPull(refs, pr) == refs[..i] + AddPull(refs[i..], pr)
    {
      assert refs[i..][1..] == refs[i + 1..];
      if SameRepo(refs[i], pr) {
        var joined := refs[i].(pulls := refs[i].pulls + pr.pulls);
        Splice(refs, i, joined);
        return refs[i := joined];
      }
      ghost var tail := AddPull(refs[i + 1..], pr);
      assert refs[..i] + ([refs[i]] + tail) == (refs[..i] + [refs[i]]) + tail;
      assert refs[..i] + [refs[i]] == refs[..i + 1];
      i := i + 1;
    }
    assert refs[..i] == refs && refs[i..] == [];
    result := refs + [pr];
  }

  lemma Splice(refs: seq<Refs>, i: nat, r: Refs)
    requires i < |refs|
    ensures refs[i := r] == refs[..i] + ([r] + refs[i + 1..])
  {
  }

  const EMPTY := JobInput("", "", "", [])

  /** One part is added, unless it cannot be resolved or is a second image. */
  function AddPart(arch: string, input: JobInput, part: Part): Option<JobInput> {
    match part
    case PullRequest(refs) => Some(input.(refs := AddPull(input.refs, refs)))
    case Release(image, version, runImage) =>
      if image == "" || input.image != "" then None
      else if arch == "arm64" && (runImage == "" || version == "") && !Contains(image, "konflux") then None
      else Some(input.(image := image, version := version, runImage := runImage))
    case Unresolved => None
  }

  function AddParts(arch: string, parts: seq<Part>): Option<JobInput> {
    if parts == [] then Some(EMPTY)
    else
      var before := AddParts(arch, parts[..|parts| - 1]);
      if before.None? then None else AddPart(arch, before.value, parts[|parts| - 1])
  }

  /** An input of pull requests alone takes its version from the first repository. */
  function Finish(input: JobInput, versionOf: Refs -> string): JobInput {
    if input.version == "" && input.refs != [] then input.(version := versionOf(input.refs[0])) else input
  }

  function Lookup(arch: string, inputs: seq<seq<Part>>, versionOf: Refs -> string): Option<seq<JobInput>> {
    if inputs == [] then Some([])
    else
      var before := Lookup(arch, inputs[..|inputs| - 1], versionOf);
      var last := AddParts(arch, inputs[|inputs| - 1]);
      if before.None? || last.None? then None else Some(before.value + [Finish(last.value, versionOf)])
  }

  method ReadInput(arch: string, parts: seq<Part>) returns (result: Option<JobInput>)
    ensures result == AddParts(arch, parts)
  {
    var input := EMPTY;
    for i := 0 to |parts|
      invariant AddParts(arch, parts[..i]) == Some(input)
    {
      assert parts[..i + 1][..i] == parts[..i];
      match parts[i]
      case Unresolved =>
        Refuse(arch, parts, i + 1);
        return None;
      case PullRequest(refs) =>
        var grouped := AppendPull(input.refs, refs);
        input := input.(refs := grouped);
      case Release(image, version, runImage) =>
        if image == "" || input.image != ""
           || (arch == "arm64" && (runImage == "" || version == "") && !Contains(image, "konflux")) {
          Refuse(arch, parts, i + 1);
          return None;
        }
        input := input.(image := image, version := version, runImage := runImage);
    }
    assert parts[..|parts|] == parts;
    result := Some(input);
  }

  lemma {:induction false} Refuse(arch: string, parts: seq<Part>, k: nat)
    requires k <= |parts| && AddParts(arch, parts[..k]).None?
    ensures AddParts(arch, parts).None?
    decreases |parts| - k
  {
    if k == |parts| {
      assert parts[..k] == parts;
    } else {
      assert parts[..k + 1][..k] == parts[..k];
      Refuse(arch, parts, k + 1);
    }
  }

  /** No input at all means the current nightly. */
  function WithDefault(inputs: seq<seq<Part>>, nightly: Part): seq<seq<Part>> {
    if inputs == [] || inputs == [[]] then [[nightly]] else inputs
  }

  method LookupInputs(arch: string, requested: seq<seq<Part>>, nightly: Part, versionOf: Refs -> string)
    returns (result: Option<seq<JobInput>>)
    ensures result == Lookup(arch, WithDefault(requested, nightly), versionOf)
  {
    var inputs := requested;
    if |inputs| == 0 || (|inputs| == 1 && |inputs[0]| == 0) {
      inputs := [[nightly]];
    }
    var jobInputs: seq<JobInput> := [];
    for i := 0 to |inputs|
      invariant Lookup(arch, inputs[..i], versionOf) == Some(jobInputs)
    {
      assert inputs[..i + 1][..i] == inputs[..i];
      var input := ReadInput(arch, inputs[i]);
      if input.None? {
        RefuseAll(arch, inputs, versionOf, i + 1);
        return None;
      }
      jobInputs := jobInputs + [Finish(input.value, versionOf)];
    }
    assert inputs[..|inputs|] == inputs;
    result := Some(jobInputs);
  }

  lemma {:induction false} RefuseAll(arch: string, inputs: seq<seq<Part>>, versionOf: Refs -> string, k: nat)
    requires k <= |inputs| && Lookup(arch, inputs[..k], versionOf).None?
    ensures Lookup(arch, inputs, versionOf).None?
    decreases |inputs| - k
  {
    if k == |inputs| {
      assert inputs[..k] == inputs;
    } else {
      assert inputs[..k + 1][..k] == inputs[..k];
      RefuseAll(arch, inputs, versionOf, k + 1);
    }
  }

  // ----- grouping loses and invents nothing -----

  /** The pulls of one repository, in order, whether grouped or not. */
  function PullsOf(refs: seq<Refs>, org: string, repo: string): seq<Pull> {
    if refs == [] then []
    else (if refs[0].org == org && refs[0].repo == repo then refs[0].pulls else []) + PullsOf(refs[1..], org, repo)
  }

  /** The pull requests among the parts, as given. */
  function Given(parts: seq<Part>): seq<Refs> {
    if parts == [] then []
    else Given(parts[..|parts| - 1]) +
         (if parts[|parts| - 1].PullRequest? then [parts[|parts| - 1].refs] else [])
  }

  function Images(parts: seq<Part>): seq<string> {
    if parts == [] then []
    else Images(parts[..|parts| - 1]) +
         (if parts[|parts| - 1].Release? then [parts[|parts| - 1].image] else [])
  }

  predicate DistinctRepos(refs: seq<Refs>) {
    forall i, j :: 0 <= i < j < |refs| ==> !SameRepo(refs[i], refs[j])
  }

  lemma {:induction false} PullsOfConcat(a: seq<Refs>, b: seq<Refs>, org: string, repo: string)
    ensures PullsOf(a + b, org, repo) == PullsOf(a, org, repo) + PullsOf(b, org, repo)
  {
    if a == [] {
      assert a + b == b;
    } else {
      assert (a + b)[1..] == a[1..] + b;
      PullsOfConcat(a[1..], b, org, repo);
    }
  }

  lemma {:induction false} NoRepoNoPulls(refs: seq<Refs>, org: string, repo: string)
    requires forall i :: 0 <= i < |refs| ==> !(refs[i].org == org && refs[i].repo == repo)
    ensures PullsOf(refs, org, repo) == []
  {
    if refs != [] {
      assert forall i :: 0 <= i < |refs[1..]| ==> refs[1..][i] == refs[i + 1];
      NoRepoNoPulls(refs[1..], org, repo);
    }
  }

  /** Adding a pull request appends its pulls to its repository's and changes no other. */
  lemma {:induction false} AddPullPulls(refs: seq<Refs>, pr: Refs, org: string, repo: string)
    requires DistinctRepos(refs)
    ensures PullsOf(AddPull(refs, pr), org, repo) == PullsOf(refs, org, repo) + PullsOf([pr], org, repo)
  {
    assert PullsOf([pr][1..], org, repo) == [];
    if refs != [] {
      assert forall i :: 0 <= i < |refs[1..]| ==> refs[1..][i] == refs[i + 1];
      if SameRepo(refs[0], pr) {
        var joined := refs[0].(pulls := refs[0].pulls + pr.pulls);
        assert ([joined] + refs[1..])[1..] == refs[1..];
        if refs[0].org == org && refs[0].repo == repo {
          NoRepoNoPulls(refs[1..], org, repo);
        }
      } else {
        assert ([refs[0]] + AddPull(refs[1..], pr))[1..] == AddPull(refs[1..], pr);
        AddPullPulls(refs[1..], pr, org, repo);
      }
    }
  }

  lemma {:induction false} AddPullRepos(refs: seq<Refs>, pr: Refs)
    requires DistinctRepos(refs)
    ensures DistinctRepos(AddPull(refs, pr))
    ensures forall i :: 0 <= i < |AddPull(refs, pr)| ==>
      SameRepo(AddPull(refs, pr)[i], pr) || exists j :: 0 <= j < |refs| && SameRepo(AddPull(refs, pr)[i], refs[j])
  {
    if refs != [] && !SameRepo(refs[0], pr) {
      var tail := refs[1..];
      assert forall i :: 0 <= i < |tail| ==> tail[i] == refs[i + 1];
      AddPullRepos(tail, pr);
      var grown := AddPull(tail, pr);
      forall i | 0 <= i < |grown|
        ensures !SameRepo(refs[0], grown[i])
        ensures SameRepo(grown[i], pr) || exists j :: 0 <= j < |refs| && SameRepo(grown[i], refs[j])
      {
        if !SameRepo(grown[i], pr) {
          var j :| 0 <= j < |tail| && SameRepo(grown[i], tail[j]);
          assert SameRepo(grown[i], refs[j + 1]);
        }
      }
      assert AddPull(refs, pr) == [refs[0]] + grown;
    } else if refs != [] {
      assert forall i :: 0 <= i < |refs| ==> SameRepo(AddPull(refs, pr)[i], refs[i]);
    }
  }

  /**
   * An accepted input groups its pull requests: repositories are distinct, and
   * each has exactly the pulls given for it, in the order given. It has at most
   * one image, the one that was given.
   */
  lemma {:induction false} GroupingFaithful(arch: string, parts: seq<Part>, org: string, repo: string)
    requires AddParts(arch, parts).Some?
    ensures var input := AddParts(arch, parts).value;
            && DistinctRepos(input.refs)
            && PullsOf(input.refs, org, repo) == PullsOf(Given(parts), org, repo)
            && Images(parts) == (if input.image == "" then [] else [input.image])
  {
    if parts != [] {
      var n := |parts| - 1;
      var before := AddParts(arch, parts[..n]).value;
      GroupingFaithful(arch, parts[..n], org, repo);
      if parts[n].PullRequest? {
        AddPullPulls(before.refs, parts[n].refs, org, repo);
        AddPullRepos(before.refs, parts[n].refs);
        PullsOfConcat(Given(parts[..n]), [parts[n].refs], org, repo);
      } else {
        assert Given(parts) == Given(parts[..n]);
      }
    }
  }

  /** An arm64 input has an amd64 image to run it and a version, unless it is konflux. */
  lemma {:induction false} Arm64HasRunner(parts: seq<Part>)
    requires AddParts("arm64", parts).Some?
    ensures var input := AddParts("arm64", parts).value;
            input.image != "" ==> Contains(input.image, "konflux") || (input.runImage != "" && input.version != "")
  {
    if parts != [] {
      Arm64HasRunner(parts[..|parts| - 1]);
    }
  }

  function AllPulls(refs: seq<Refs>): multiset<Pull> {
    if refs == [] then multiset{} else multiset(refs[0].pulls) + AllPulls(refs[1..])
  }

  lemma {:induction false} AddPullAll(refs: seq<Refs>, pr: Refs)
    ensures AllPulls(AddPull(refs, pr)) == AllPulls(refs) + multiset(pr.pulls)
  {
    if refs == [] {
      assert [pr][1..] == [];
    } else if SameRepo(refs[0], pr) {
      var joined := refs[0].(pulls := refs[0].pulls + pr.pulls);
      assert ([joined] + refs[1..])[1..] == refs[1..];
    } else {
      assert ([refs[0]] + AddPull(refs[1..], pr))[1..] == AddPull(refs[1..], pr);
      AddPullAll(refs[1..], pr);
    }
  }

  lemma {:induction false} AllPullsAppend(refs: seq<Refs>, pr: Refs)
    ensures AllPulls(refs + [pr]) == AllPulls(refs) + multiset(pr.pulls)
  {
    if refs == [] {
      assert (refs + [pr])[1..] == [];
    } else {
      assert (refs + [pr])[1..] == refs[1..] + [pr];
      AllPullsAppend(refs[1..], pr);
    }
  }

  /** Over all repositories every pull is kept exactly as often as it was given. */
  lemma {:induction false} GroupingConserves(arch: string, parts: seq<Part>)
    requires AddParts(arch, parts).Some?
    ensures AllPulls(AddParts(arch, parts).value.refs) == AllPulls(Given(parts))
  {
    if parts != [] {
      var n := |parts| - 1;
      var before := AddParts(arch, parts[..n]).value;
      GroupingConserves(arch, parts[..n]);
      if parts[n].PullRequest? {
        AddPullAll(before.refs, parts[n].refs);
        AllPullsAppend(Given(parts[..n]), parts[n].refs);
      } else {
        assert Given(parts) == Given(parts[..n]);
      }
    }
  }

  lemma {:induction false} LookupEach(arch: string, inputs: seq<seq<Part>>, versionOf: Refs -> string, i: nat)
    requires Lookup(arch, inputs, versionOf).Some? && i < |inputs|
    ensures var js := Lookup(arch, inputs, versionOf).value;
            && |js| == |inputs| && AddParts(arch, inputs[i]).Some?
            && js[i] == Finish(AddParts(arch, inputs[i]).value, versionOf)
  {
    var n := |inputs| - 1;
    if n > 0 {
      LookupEach(arch, inputs[..n], versionOf, if i < n then i else 0);
    }
  }

  /** The same for every input of an accepted list. */
  lemma LookupFaithful(arch: string, inputs: seq<seq<Part>>, versionOf: Refs -> string, i: nat, org: string,
                       repo: string)
    requires Lookup(arch, inputs, versionOf).Some? && i < |inputs|
    ensures var js := Lookup(arch, inputs, versionOf).value;
            && |js| == |inputs|
            && DistinctRepos(js[i].refs)
            && PullsOf(js[i].refs, org, repo) == PullsOf(Given(inputs[i]), org, repo)
            && AllPulls(js[i].refs) == AllPulls(Given(inputs[i]))
            && Images(inputs[i]) == (if js[i].image == "" then [] else [js[i].image])
  {
    LookupEach(arch, inputs, versionOf, i);
    GroupingFaithful(arch, inputs[i], org, repo);
    GroupingConserves(arch, inputs[i]);
  }

  // ----- which lists are accepted, and what stands in them -----

  /** A part that can be taken: on arm64 a release needs a runner and a version, unless it is konflux. */
  predicate Takes(arch: string, part: Part) {
    && (part.PullRequest? || (part.Release? && part.image != ""))
    && (part.Release? && arch == "arm64" && !Contains(part.image, "konflux") ==>
          part.runImage != "" && part.version != "")
  }

  predicate OneRelease(parts: seq<Part>) {
    forall i, j :: 0 <= i < j < |parts| ==> !(parts[i].Release? && parts[j].Release?)
  }

  /** Image, version and runner are those of the one release, and empty without any. */
  predicate HasRelease(parts: seq<Part>, input: JobInput) {
    && (forall i :: 0 <= i < |parts| && parts[i].Release? ==>
          Release(input.image, input.version, input.runImage) == parts[i])
    && ((forall i :: 0 <= i < |parts| ==> !parts[i].Release?) ==>
          input.image == "" && input.version == "" && input.runImage == "")
  }

  lemma OneReleaseStep(parts: seq<Part>)
    requires parts != []
    ensures var n := |parts| - 1;
            OneRelease(parts) <==>
              && OneRelease(parts[..n])
              && (parts[n].Release? ==> forall i :: 0 <= i < n ==> !parts[..n][i].Release?)
  {
    var n := |parts| - 1;
    assert forall i :: 0 <= i < n ==> parts[..n][i] == parts[i];
  }

  /** An input is accepted exactly when all its parts can be taken and at most one of them is a release. */
  lemma {:induction false} AcceptedIff(arch: string, parts: seq<Part>)
    ensures AddParts(arch, parts).Some? <==> OneRelease(parts) && forall p :: p in parts ==> Takes(arch, p)
    ensures AddParts(arch, parts).Some? ==> HasRelease(parts, AddParts(arch, parts).value)
  {
    if parts != [] {
      var n := |parts| - 1;
      AcceptedIff(arch, parts[..n]);
      OneReleaseStep(parts);
      assert forall i :: 0 <= i < n ==> parts[..n][i] == parts[i];
      assert parts == parts[..n] + [parts[n]];
      assert (forall p :: p in parts ==> Takes(arch, p)) <==>
             Takes(arch, parts[n]) && forall p :: p in parts[..n] ==> Takes(arch, p);
      if AddParts(arch, parts[..n]).Some? && parts[n].Release? {
        ImageIff(parts[..n], AddParts(arch, parts[..n]).value, arch);
      }
    }
  }

  lemma ImageIff(parts: seq<Part>, input: JobInput, arch: string)
    requires HasRelease(parts, input) && forall p :: p in parts ==> Takes(arch, p)
    ensures input.image != "" <==> exists i :: 0 <= i < |parts| && parts[i].Release?
  {
    if i :| 0 <= i < |parts| && parts[i].Release? {
      assert parts[i] in parts;
    }
  }

  /** The first pull request of its repository. */
  predicate Opening(parts: seq<Part>, i: int) {
    && 0 <= i < |parts| && parts[i].PullRequest?
    && forall j :: 0 <= j < i && parts[j].PullRequest? ==> !SameRepo(parts[j].refs, parts[i].refs)
  }

  function Head(r: Refs): Refs {
    r.(pulls := [])
  }

  /** The entries stand in the order in which their repositories come up, on the base of the first pull request. */
  ghost predicate OpenedBy(parts: seq<Part>, refs: seq<Refs>, at: seq<int>) {
    && |at| == |refs|
    && (forall i, j :: 0 <= i < j < |at| ==> at[i] < at[j])
    && (forall i :: i in at <==> Opening(parts, i))
    && (forall k :: 0 <= k < |at| ==>
          Opening(parts, at[k]) && Head(refs[k]) == Head(parts[at[k]].refs))
  }

  lemma {:induction false} AddPullHeads(refs: seq<Refs>, pr: Refs)
    ensures var grown := AddPull(refs, pr);
            if exists r :: r in refs && SameRepo(r, pr)
            then |grown| == |refs| && forall k :: 0 <= k < |refs| ==> Head(grown[k]) == Head(refs[k])
            else grown == refs + [pr]
  {
    if refs != [] && !SameRepo(refs[0], pr) {
      AddPullHeads(refs[1..], pr);
      assert refs == [refs[0]] + refs[1..];
    } else if refs != [] {
      assert refs[0] in refs;
    }
  }

  lemma OpeningGrows(parts: seq<Part>, i: int)
    requires parts != []
    ensures i < |parts| - 1 ==> (Opening(parts, i) <==> Opening(parts[..|parts| - 1], i))
  {
  }

  /** A repository that has come up has an entry. */
  lemma EntryOpened(parts: seq<Part>, refs: seq<Refs>, at: seq<int>, pr: Refs)
    requires OpenedBy(parts, refs, at)
    ensures (exists r :: r in refs && SameRepo(r, pr))
       <==> exists j :: 0 <= j < |parts| && parts[j].PullRequest? && SameRepo(parts[j].refs, pr)
  {
    if r :| r in refs && SameRepo(r, pr) {
      var k :| 0 <= k < |refs| && refs[k] == r;
      assert Head(refs[k]) == Head(parts[at[k]].refs);
      assert SameRepo(parts[at[k]].refs, pr);
    }
    if j :| 0 <= j < |parts| && parts[j].PullRequest? && SameRepo(parts[j].refs, pr) {
      var i := FirstOfRepo(parts, j);
      assert i in at;
      var k :| 0 <= k < |at| && at[k] == i;
      assert Head(refs[k]) == Head(parts[i].refs);
      assert refs[k] in refs && SameRepo(refs[k], pr);
    }
  }

  lemma {:induction false} FirstOfRepo(parts: seq<Part>, j: int) returns (i: int)
    requires 0 <= j < |parts| && parts[j].PullRequest?
    ensures Opening(parts, i) && SameRepo(parts[i].refs, parts[j].refs)
    decreases j
  {
    i := j;
    if !Opening(parts, j) {
      var k :| 0 <= k < j && parts[k].PullRequest? && SameRepo(parts[k].refs, parts[j].refs);
      i := FirstOfRepo(parts, k);
    }
  }

  lemma OpeningLast(parts: seq<Part>, refs: seq<Refs>, at: seq<int>)
    requires parts != [] && parts[|parts| - 1].PullRequest? && OpenedBy(parts[..|parts| - 1], refs, at)
    ensures var n := |parts| - 1;
            Opening(parts, n) <==> !exists r :: r in refs && SameRepo(r, parts[n].refs)
  {
    var n := |parts| - 1;
    EntryOpened(parts[..n], refs, at, parts[n].refs);
    assert forall j :: 0 <= j < n ==> parts[..n][j] == parts[j];
  }

  /** A part that opens nothing. */
  lemma OpenedStays(parts: seq<Part>, refs: seq<Refs>, grown: seq<Refs>, at: seq<int>)
    requires parts != [] && OpenedBy(parts[..|parts| - 1], refs, at) && !Opening(parts, |parts| - 1)
    requires |grown| == |refs| && forall k :: 0 <= k < |refs| ==> Head(grown[k]) == Head(refs[k])
    ensures OpenedBy(parts, grown, at)
  {
    var front := parts[..|parts| - 1];
    forall i ensures Opening(parts, i) <==> Opening(front, i) {
      OpeningGrows(parts, i);
    }
  }

  lemma OpenedGrows(parts: seq<Part>, refs: seq<Refs>, at: seq<int>)
    requires parts != [] && OpenedBy(parts[..|parts| - 1], refs, at) && Opening(parts, |parts| - 1)
    ensures OpenedBy(parts, refs + [parts[|parts| - 1].refs], at + [|parts| - 1])
  {
    var n := |parts| - 1;
    forall i ensures i in at + [n] <==> Opening(parts, i) {
      OpeningGrows(parts, i);
      assert i in at <==> Opening(parts[..n], i);
    }
    forall k | 0 <= k < |at| ensures Opening(parts, at[k]) && at[k] < n {
      assert Opening(parts[..n], at[k]);
      OpeningGrows(parts, at[k]);
    }
  }

  lemma {:induction false} EntriesOpened(arch: string, parts: seq<Part>) returns (at: seq<int>)
    requires AddParts(arch, parts).Some?
    ensures OpenedBy(parts, AddParts(arch, parts).value.refs, at)
  {
    at := [];
    if parts != [] {
      var n := |parts| - 1;
      var refs := AddParts(arch, parts[..n]).value.refs;
      at := EntriesOpened(arch, parts[..n]);
      if parts[n].PullRequest? {
        AddPullHeads(refs, parts[n].refs);
        OpeningLast(parts, refs, at);
      }
      if Opening(parts, n) {
        OpenedGrows(parts, refs, at);
        at := at + [n];
      } else {
        OpenedStays(parts, refs, AddParts(arch, parts).value.refs, at);
      }
    }
  }

  /** A list is accepted exactly when all its inputs are. */
  lemma {:induction false} LookupIff(arch: string, inputs: seq<seq<Part>>, versionOf: Refs -> string)
    ensures Lookup(arch, inputs, versionOf).Some? <==>
            forall parts :: parts in inputs ==> OneRelease(parts) && forall p :: p in parts ==> Takes(arch, p)
  {
    if inputs != [] {
      var n := |inputs| - 1;
      LookupIff(arch, inputs[..n], versionOf);
      AcceptedIff(arch, inputs[n]);
      assert inputs == inputs[..n] + [inputs[n]];
    }
  }

  /** Every input has its release; without a version it takes that of its first repository, on its first base. */
  lemma LookupVersions(arch: string, inputs: seq<seq<Part>>, versionOf: Refs -> string, i: nat)
    returns (input: JobInput, at: seq<int>)
    requires Lookup(arch, inputs, versionOf).Some? && i < |inputs|
    ensures var js := Lookup(arch, inputs, versionOf).value;
            && |js| == |inputs| && HasRelease(inputs[i], input) && OpenedBy(inputs[i], js[i].refs, at)
            && js[i].image == input.image && js[i].runImage == input.runImage
            && js[i].version == if input.version == "" && js[i].refs != [] then versionOf(js[i].refs[0])
                                else input.version
  {
    LookupEach(arch, inputs, versionOf, i);
    AcceptedIff(arch, inputs[i]);
    input := AddParts(arch, inputs[i]).value;
    at := EntriesOpened(arch, inputs[i]);
  }

  /** Where nothing was asked for, the nightly is launched. */
  lemma NothingAsked(arch: string, asked: seq<seq<Part>>, nightly: Part, versionOf: Refs -> string)
    requires nightly.Release? && Takes(arch, nightly)
    ensures asked == [] || asked == [[]] ==>
      Lookup(arch, WithDefault(asked, nightly), versionOf)
      == Some([JobInput(nightly.image, nightly.version, nightly.runImage, [])])
    ensures |asked| > 1 || (|asked| == 1 && asked[0] != []) ==> WithDefault(asked, nightly) == asked
  {
    assert [nightly][..0] == [] && [[nightly]][..0] == [];
    assert AddParts(arch, [nightly]) == AddPart(arch, EMPTY, nightly);
    assert Lookup(arch, [[nightly]][..0], versionOf) == Some([]);
    assert [[nightly]][|[[nightly]]| - 1] == [nightly];
    assert Lookup(arch, [[nightly]], versionOf) == Some([] + [Finish(AddParts(arch, [nightly]).value, versionOf)]);
    assert [] + [Finish(AddParts(arch, [nightly]).value, versionOf)]
        == [JobInput(nightly.image, nightly.version, nightly.runImage, [])];
    assert asked == [] || asked == [[]] ==> WithDefault(asked, nightly) == [[nightly]];
  }
}
