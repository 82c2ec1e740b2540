/**
 * Release resolution: the streams of an architecture are tried in order, and the
 * words `nightly`, `ci` and `prerelease` are replaced in place on the way.
 */
module Resolver {
  import opened GoStrings
  import opened Wrappers

  datatype Tag = Tag(name: string, accepted: bool, stream: string, created: string, dockerImage: Option<string>)

  datatype Item = Item(image: string, dockerReference: string)

  datatype StatusTag = StatusTag(name: string, items: seq<Item>)

  datatype ImageStream = ImageStream(specTags: seq<Tag>, statusTags: seq<StatusTag>)

  /** One stream of the list: what reading it gives, and reading its amd64 companion. */
  datatype Source = Source(namespace: string, name: string, content: Option<ImageStream>, amd64: Option<ImageStream>)

  /**
   * The surroundings: the current release as "major.minor", the semantic-version
   * library's reading of a name as "major.minor", and the pick of the newest
   * stable tag, which sorts by that library.
   */
  datatype Env = Env(
    current: string,
    majorMinorOf: string -> Option<string>,
    newestStable: (ImageStream, string, string) -> Option<Tag>)

  datatype Verdict = Found(install: string, name: string, run: string) | Failed | Nothing

  // ----- picking a tag -----

  predicate Candidate(t: Tag, stream: string) {
    t.accepted && t.stream == stream
  }

  /** An accepted tag of the stream with the latest creation stamp, the first of those. */
  predicate IsNewestTag(tags: seq<Tag>, stream: string, i: int) {
    && 0 <= i < |tags| && tags[i].accepted && tags[i].stream == stream
    && (forall j :: 0 <= j < |tags| && tags[j].accepted && tags[j].stream == stream ==>
          LexLeq(tags[j].created, tags[i].created))
    && (forall j :: 0 <= j < i && tags[j].accepted && tags[j].stream == stream ==>
          !LexLeq(tags[i].created, tags[j].created))
  }

  predicate NoCandidate(tags: seq<Tag>, stream: string) {
    forall j :: 0 <= j < |tags| ==> !(tags[j].accepted && tags[j].stream == stream)
  }

  function NewestTag(tags: seq<Tag>, stream: string): Option<Tag> {
    if tags == [] then None
    else
      var n := |tags| - 1;
      var before := NewestTag(tags[..n], stream);
      if Candidate(tags[n], stream) && (before.None? || !LexLeq(tags[n].created, before.value.created))
      then Some(tags[n]) else before
  }

  method FindNewestTag(tags: seq<Tag>, stream: string) returns (newest: Option<Tag>)
    ensures newest == NewestTag(tags, stream)
  {
    newest := None;
    for i := 0 to |tags|
      invariant newest == NewestTag(tags[..i], stream)
    {
      assert tags[..i + 1][..i] == tags[..i];
      if !tags[i].accepted {
        continue;
      }
      if tags[i].stream != stream {
        continue;
      }
      if newest.None? || !LexLeq(tags[i].created, newest.value.created) {
        newest := Some(tags[i]);
      }
    }
    assert tags[..|tags|] == tags;
  }

  /** The pick is an accepted tag with a maximal stamp; there is none only without candidates. */
  lemma {:induction false} NewestTagIsNewest(tags: seq<Tag>, stream: string) returns (i: int)
    ensures NewestTag(tags, stream).None? ==> NoCandidate(tags, stream)
    ensures NewestTag(tags, stream).Some? ==> IsNewestTag(tags, stream, i) && NewestTag(tags, stream) == Some(tags[i])
  {
    i := 0;
    if tags != [] {
      var n := |tags| - 1;
      var front := tags[..n];
      i := NewestTagIsNewest(front, stream);
      var before := NewestTag(front, stream);
      assert forall j :: 0 <= j < n ==> tags[j] == front[j];
      if Candidate(tags[n], stream) {
        LexTotal(tags[n].created, tags[n].created);
        if before.None? {
          i := n;
        } else {
          LexTotal(tags[n].created, before.value.created);
          if !LexLeq(tags[n].created, before.value.created) {
            LaterThanAll(front, stream, i, tags[n]);
            i := n;
          }
        }
      }
    }
  }

  lemma LaterThanAll(front: seq<Tag>, stream: string, i: int, t: Tag)
    requires IsNewestTag(front, stream, i) && !LexLeq(t.created, front[i].created)
    ensures forall j :: 0 <= j < |front| && Candidate(front[j], stream) ==>
      LexLeq(front[j].created, t.created) && !LexLeq(t.created, front[j].created)
  {
    LexTotal(t.created, front[i].created);
    forall j | 0 <= j < |front| && Candidate(front[j], stream)
      ensures LexLeq(front[j].created, t.created) && !LexLeq(t.created, front[j].created)
    {
      LexTransitive(front[j].created, front[i].created, t.created);
      if LexLeq(t.created, front[j].created) {
        LexTransitive(t.created, front[j].created, front[i].created);
      }
    }
  }

  /** The first status tag of that name, unless it has no items. */
  function StatusItem(tags: seq<StatusTag>, name: string): Option<Item> {
    if tags == [] then None
    else if tags[0].name == name then (if tags[0].items == [] then None else Some(tags[0].items[0]))
    else StatusItem(tags[1..], name)
  }

  function SpecTag(tags: seq<Tag>, name: string): Option<Tag> {
    if tags == [] then None else if tags[0].name == name then Some(tags[0]) else SpecTag(tags[1..], name)
  }

  // ----- one stream -----

  function BuildPullSpec(namespace: string, tag: string, stream: string): string {
    "registry.ci.openshift.org/" + namespace + "/" + stream + (if HasPrefix(tag, "sha256:") then "@" else ":") + tag
  }

  function PullSpecForTag(t: Tag, namespace: string, stream: string): string {
    if t.dockerImage.Some? then t.dockerImage.value else BuildPullSpec(namespace, t.name, stream)
  }

  function ItemSpec(item: Item, namespace: string, stream: string): string {
    if item.image == "" then item.dockerReference else BuildPullSpec(namespace, item.image, stream)
  }

  predicate RunsItself(arch: string) {
    arch == "amd64" || arch == "multi"
  }

  /** A release found in `s`; on other architectures an amd64 release has to run the job. */
  function WithRunner(arch: string, install: string, name: string, runner: Option<string>): Verdict {
    if RunsItself(arch) then Found(install, name, install)
    else if runner.None? then Failed
    else Found(install, name, runner.value)
  }

  function TagSpec(t: Option<Tag>): Option<string> {
    if t.Some? then Some(PullSpecForTag(t.value, "ocp", "release")) else None
  }

  /** The amd64 tags; used only where the companion was read. */
  function Companion(s: Source): ImageStream {
    if s.amd64.Some? then s.amd64.value else ImageStream([], [])
  }

  function TryMajorMinor(env: Env, arch: string, suffix: string, s: Source, img: ImageStream, name: string): Verdict {
    var nightly := NewestTag(img.specTags, name + ".0-0.nightly" + suffix);
    var ci := NewestTag(img.specTags, name + ".0-0.ci" + suffix);
    var stable := env.newestStable(img, name, arch);
    var amd := Companion(s);
    if nightly.Some? then
      WithRunner(arch, PullSpecForTag(nightly.value, s.namespace, s.name), nightly.value.name,
                 TagSpec(NewestTag(amd.specTags, name + ".0-0.nightly")))
    else if ci.Some? then
      WithRunner(arch, PullSpecForTag(ci.value, s.namespace, s.name), ci.value.name,
                 TagSpec(NewestTag(amd.specTags, name + ".0-0.ci")))
    else if stable.Some? then
      WithRunner(arch, PullSpecForTag(stable.value, s.namespace, s.name), stable.value.name,
                 TagSpec(env.newestStable(amd, name, "amd64")))
    else Nothing
  }

  /** The amd64 nightly that goes with a nightly name, if the name can be read as a version. */
  function NightlyRunner(env: Env, amd: ImageStream, name: string): Option<string> {
    var v := env.majorMinorOf(name);
    if v.None? then None else TagSpec(NewestTag(amd.specTags, v.value + ".0-0.nightly"))
  }

  function TryName(env: Env, arch: string, s: Source, img: ImageStream, name: string): Verdict {
    var amd := Companion(s);
    var item := StatusItem(img.statusTags, name);
    var newest := NewestTag(img.specTags, name);
    var byName := SpecTag(img.specTags, name);
    var nightly := Contains(name, "nightly");
    if item.Some? then
      var install := ItemSpec(item.value, s.namespace, s.name);
      if Contains(name, "konflux") then Found(install, name, install)
      else
        var run := StatusItem(amd.statusTags, name);
        WithRunner(arch, install, name,
                   if nightly then NightlyRunner(env, amd, name)
                   else if run.Some? then Some(ItemSpec(run.value, "ocp", "release")) else None)
    else if newest.Some? then
      WithRunner(arch, PullSpecForTag(newest.value, s.namespace, s.name), newest.value.name,
                 if nightly then NightlyRunner(env, amd, name) else TagSpec(NewestTag(amd.specTags, name)))
    else if byName.Some? then
      WithRunner(arch, PullSpecForTag(byName.value, s.namespace, s.name), byName.value.name,
                 TagSpec(SpecTag(amd.specTags, name)))
    else Nothing
  }

  // ----- the loop -----

  /** Digits, a dot, digits. */
  predicate IsMajorMinor(s: string) {
    exists i :: 0 < i < |s| - 1 && s[i] == '.' && forall j :: 0 <= j < |s| && j != i ==> '0' <= s[j] <= '9'
  }

  function Rewrite(env: Env, suffix: string, name: string): string {
    if name == "nightly" then env.current + ".0-0.nightly" + suffix
    else if name == "ci" || name == "prerelease" then env.current + ".0-0.ci" + suffix
    else name
  }

  /** What a readable stream says about a name that needs no rewriting. */
  function Examine(env: Env, arch: string, suffix: string, s: Source, name: string): Verdict
    requires s.content.Some?
  {
    if !RunsItself(arch) && s.amd64.None? then Failed
    else if IsMajorMinor(name) then TryMajorMinor(env, arch, suffix, s, s.content.value, name)
    else TryName(env, arch, s, s.content.value, name)
  }

  /** The first readable stream with a result or an error decides. */
  function FirstVerdict(env: Env, arch: string, suffix: string, sources: seq<Source>, name: string): Verdict {
    if sources == [] then Nothing
    else
      var rest := FirstVerdict(env, arch, suffix, sources[1..], name);
      if sources[0].content.None? then rest
      else
        var v := Examine(env, arch, suffix, sources[0], name);
        if v == Nothing then rest else v
  }

  lemma HyphenIsNoMajorMinor(s: string)
    requires '-' in s
    ensures !IsMajorMinor(s)
  {
  }

  /** A rewritten word is neither a version nor a word to be rewritten again. */
  lemma RewriteSettles(env: Env, suffix: string, name: string)
    ensures Rewrite(env, suffix, Rewrite(env, suffix, name)) == Rewrite(env, suffix, name)
    ensures IsMajorMinor(name) ==> Rewrite(env, suffix, name) == name
    ensures IsMajorMinor(Rewrite(env, suffix, name)) ==> IsMajorMinor(name)
  {
    var r := Rewrite(env, suffix, name);
    if name == "nightly" {
      assert r == env.current + ".0-0.nightly" + suffix;
      assert r[|env.current| + 2] == '-' && r[|env.current|] == '.';
      HyphenIsNoMajorMinor(r);
      WordIsNoVersion(name);
    } else if name == "ci" || name == "prerelease" {
      assert r == env.current + ".0-0.ci" + suffix;
      assert r[|env.current| + 2] == '-' && r[|env.current|] == '.';
      HyphenIsNoMajorMinor(r);
      WordIsNoVersion(name);
    }
  }

  lemma WordIsNoVersion(name: string)
    requires name == "nightly" || name == "ci" || name == "prerelease"
    ensures !IsMajorMinor(name) && '.' !in name
  {
  }

  /** Rewriting in place on the way gives what rewriting once and taking the first verdict gives. */
  method Resolve(env: Env, arch: string, suffix: string, sources: seq<Source>, requested: string) returns (v: Verdict)
    ensures v == FirstVerdict(env, arch, suffix, sources, Rewrite(env, suffix, requested))
  {
    var unresolved := requested;
    ghost var settled := Rewrite(env, suffix, requested);
    RewriteSettles(env, suffix, requested);
    var k := 0;
    while k < |sources|
      invariant k <= |sources|
      invariant unresolved == requested || unresolved == settled
      invariant FirstVerdict(env, arch, suffix, sources, settled)
             == FirstVerdict(env, arch, suffix, sources[k..], settled)
    {
      var s := sources[k];
      assert sources[k..][1..] == sources[k + 1..];
      k := k + 1;
      if s.content.None? {
        continue;
      }
      if !RunsItself(arch) && s.amd64.None? {
        return Failed;
      }
      if IsMajorMinor(unresolved) {
        v := TryMajorMinor(env, arch, suffix, s, s.content.value, unresolved);
      } else {
        unresolved := Rewrite(env, suffix, unresolved);
        v := TryName(env, arch, s, s.content.value, unresolved);
      }
      if v != Nothing {
        return;
      }
    }
    v := Nothing;
  }

  // ----- what is found, said without the functions that find it -----

  /** Where an image is taken from: an image stream and the names that go into its pull specs. */
  datatype Origin = Origin(img: ImageStream, namespace: string, stream: string)

  function OwnOrigin(s: Source): Origin
    requires s.content.Some?
  {
    Origin(s.content.value, s.namespace, s.name)
  }

  function RunnerOrigin(s: Source): Origin {
    match s.amd64
    case Some(img) => Origin(img, "ocp", "release")
    case None => Origin(ImageStream([], []), "ocp", "release")
  }

  /** The pull spec names the tag, or the digest, of the stream in the registry. */
  predicate Pulls(spec: string, o: Origin, tag: string) {
    var stream := "registry.ci.openshift.org/" + o.namespace + "/" + o.stream;
    if "sha256:" <= tag then spec == stream + "@" + tag else spec == stream + ":" + tag
  }

  /** A tag's own image reference goes first. */
  predicate PullsTag(spec: string, o: Origin, t: Tag) {
    t.dockerImage == Some(spec) || (t.dockerImage.None? && Pulls(spec, o, t.name))
  }

  /** An item without an image is pulled by its reference. */
  predicate PullsItem(spec: string, o: Origin, item: Item) {
    if item.image != "" then Pulls(spec, o, item.image) else spec == item.dockerReference
  }

  lemma PullSpecs(o: Origin, t: Tag, item: Item)
    ensures PullsTag(PullSpecForTag(t, o.namespace, o.stream), o, t)
    ensures PullsItem(ItemSpec(item, o.namespace, o.stream), o, item)
  {
  }

  /** The newest accepted tag of a release stream, by its name and its image. */
  ghost predicate NewestRelease(o: Origin, stream: string, name: string, spec: string) {
    exists i :: IsNewestTag(o.img.specTags, stream, i) && name == o.img.specTags[i].name
      && PullsTag(spec, o, o.img.specTags[i])
  }

  ghost predicate NewestRun(o: Origin, stream: string, spec: string) {
    exists name :: NewestRelease(o, stream, name, spec)
  }

  predicate FirstStatus(tags: seq<StatusTag>, name: string, i: int) {
    0 <= i < |tags| && tags[i].name == name && forall j :: 0 <= j < i ==> tags[j].name != name
  }

  /** The first item of the first status tag of that name. */
  ghost predicate StatusRelease(o: Origin, name: string, spec: string) {
    exists i :: FirstStatus(o.img.statusTags, name, i) && o.img.statusTags[i].items != []
      && PullsItem(spec, o, o.img.statusTags[i].items[0])
  }

  predicate FirstSpec(tags: seq<Tag>, name: string, i: int) {
    0 <= i < |tags| && tags[i].name == name && forall j :: 0 <= j < i ==> tags[j].name != name
  }

  /** The first spec tag of that name, accepted or not. */
  ghost predicate NamedRelease(o: Origin, name: string, spec: string) {
    exists i :: FirstSpec(o.img.specTags, name, i) && PullsTag(spec, o, o.img.specTags[i])
  }

  function TagName(t: Option<Tag>): Option<string> {
    if t.Some? then Some(t.value.name) else None
  }

  predicate StableRelease(env: Env, o: Origin, version: string, arch: string, spec: string) {
    var t := env.newestStable(o.img, version, arch);
    t.Some? && PullsTag(spec, o, t.value)
  }

  ghost predicate NoStatus(o: Origin, name: string) {
    forall i :: FirstStatus(o.img.statusTags, name, i) ==> o.img.statusTags[i].items == []
  }

  ghost predicate HasNewest(o: Origin, stream: string) {
    exists i :: IsNewestTag(o.img.specTags, stream, i)
  }

  ghost predicate HasStatus(o: Origin, name: string) {
    exists i :: FirstStatus(o.img.statusTags, name, i) && o.img.statusTags[i].items != []
  }

  ghost predicate HasSpec(o: Origin, name: string) {
    exists t :: t in o.img.specTags && t.name == name
  }

  /** Amd64 and multi releases run the job themselves. */
  predicate Self(arch: string) {
    arch == "amd64" || arch == "multi"
  }

  /** The stream has something for the name. */
  ghost predicate Offers(env: Env, arch: string, suffix: string, s: Source, name: string)
    requires s.content.Some?
  {
    var own := OwnOrigin(s);
    if IsMajorMinor(name) then
      || HasNewest(own, name + ".0-0.nightly" + suffix) || HasNewest(own, name + ".0-0.ci" + suffix)
      || env.newestStable(own.img, name, arch).Some?
    else HasStatus(own, name) || HasNewest(own, name) || HasSpec(own, name)
  }

  ghost predicate HasNightlyRun(env: Env, amd: Origin, name: string) {
    env.majorMinorOf(name).Some? && HasNewest(amd, env.majorMinorOf(name).value + ".0-0.nightly")
  }

  /** The amd64 companion has what runs the preferred one of a version. */
  ghost predicate VersionRuns(env: Env, suffix: string, s: Source, name: string)
    requires s.content.Some?
  {
    var own, amd := OwnOrigin(s), RunnerOrigin(s);
    if HasNewest(own, name + ".0-0.nightly" + suffix) then HasNewest(amd, name + ".0-0.nightly")
    else if HasNewest(own, name + ".0-0.ci" + suffix) then HasNewest(amd, name + ".0-0.ci")
    else env.newestStable(amd.img, name, "amd64").Some?
  }

  /** The same for a release name; konflux images need none. */
  ghost predicate NameRuns(env: Env, s: Source, name: string)
    requires s.content.Some?
  {
    var own, amd := OwnOrigin(s), RunnerOrigin(s);
    if HasStatus(own, name) then
      || Contains(name, "konflux")
      || (if Contains(name, "nightly") then HasNightlyRun(env, amd, name) else HasStatus(amd, name))
    else if HasNewest(own, name) then
      if Contains(name, "nightly") then HasNightlyRun(env, amd, name) else HasNewest(amd, name)
    else HasSpec(amd, name)
  }

  /** The job can be run: by the release itself, or by the amd64 companion. */
  ghost predicate Runnable(env: Env, arch: string, suffix: string, s: Source, name: string)
    requires s.content.Some?
  {
    || Self(arch)
    || (s.amd64.Some? && if IsMajorMinor(name) then VersionRuns(env, suffix, s, name) else NameRuns(env, s, name))
  }

  /** The search ends here: the stream can be read, and has something or lacks the companion it needs. */
  ghost predicate Stops(env: Env, arch: string, suffix: string, s: Source, name: string) {
    s.content.Some? && ((!Self(arch) && s.amd64.None?) || Offers(env, arch, suffix, s, name))
  }

  /** "4.17": the newest nightly, else the newest CI release, else the stable pick, each run by its own kind. */
  ghost predicate VersionSourced(env: Env, arch: string, suffix: string, s: Source, name: string, v: Verdict)
    requires s.content.Some? && v.Found?
  {
    var own, amd := OwnOrigin(s), RunnerOrigin(s);
    var nightly, ci := name + ".0-0.nightly" + suffix, name + ".0-0.ci" + suffix;
    var itself := Self(arch);
    || (NewestRelease(own, nightly, v.name, v.install)
        && (if itself then v.run == v.install else NewestRun(amd, name + ".0-0.nightly", v.run)))
    || (NoCandidate(own.img.specTags, nightly) && NewestRelease(own, ci, v.name, v.install)
        && (if itself then v.run == v.install else NewestRun(amd, name + ".0-0.ci", v.run)))
    || (NoCandidate(own.img.specTags, nightly) && NoCandidate(own.img.specTags, ci)
        && StableRelease(env, own, name, arch, v.install)
        && Some(v.name) == TagName(env.newestStable(own.img, name, arch))
        && (if itself then v.run == v.install else StableRelease(env, amd, name, "amd64", v.run)))
  }

  /** The newest amd64 nightly of the version a nightly name belongs to. */
  ghost predicate NightlyRun(env: Env, amd: Origin, name: string, run: string) {
    env.majorMinorOf(name).Some? && NewestRun(amd, env.majorMinorOf(name).value + ".0-0.nightly", run)
  }

  /** A release name: the image of that status tag, else the newest of that release stream, else that spec tag. */
  ghost predicate NameSourced(env: Env, arch: string, s: Source, name: string, v: Verdict)
    requires s.content.Some? && v.Found?
  {
    var own, amd := OwnOrigin(s), RunnerOrigin(s);
    var itself := Self(arch);
    var nightly := Contains(name, "nightly");
    || (StatusRelease(own, name, v.install) && v.name == name
        && (if itself || Contains(name, "konflux") then v.run == v.install
            else if nightly then NightlyRun(env, amd, name, v.run) else StatusRelease(amd, name, v.run)))
    || (NoStatus(own, name) && NewestRelease(own, name, v.name, v.install)
        && (if itself then v.run == v.install
            else if nightly then NightlyRun(env, amd, name, v.run) else NewestRun(amd, name, v.run)))
    || (NoStatus(own, name) && NoCandidate(own.img.specTags, name)
        && NamedRelease(own, name, v.install) && v.name == name
        && (if itself then v.run == v.install else NamedRelease(amd, name, v.run)))
  }

  ghost predicate WellSourced(env: Env, arch: string, suffix: string, s: Source, name: string, v: Verdict)
    requires s.content.Some? && v.Found?
  {
    if IsMajorMinor(name) then VersionSourced(env, arch, suffix, s, name, v) else NameSourced(env, arch, s, name, v)
  }

  lemma NewestIs(o: Origin, stream: string)
    ensures var t := NewestTag(o.img.specTags, stream);
            if t.Some? then NewestRelease(o, stream, t.value.name, PullSpecForTag(t.value, o.namespace, o.stream))
            else NoCandidate(o.img.specTags, stream)
    ensures NewestTag(o.img.specTags, stream).Some? <==> HasNewest(o, stream)
  {
    var i := NewestTagIsNewest(o.img.specTags, stream);
    if NewestTag(o.img.specTags, stream).Some? {
      PullSpecs(o, o.img.specTags[i], Item("", ""));
    }
  }

  lemma {:induction false} SpecTagIsFirst(tags: seq<Tag>, name: string) returns (i: int)
    ensures SpecTag(tags, name).Some? ==> FirstSpec(tags, name, i) && SpecTag(tags, name) == Some(tags[i])
    ensures SpecTag(tags, name).None? ==> forall t :: t in tags ==> t.name != name
  {
    i := 0;
    if tags != [] && tags[0].name != name {
      i := SpecTagIsFirst(tags[1..], name);
      i := i + 1;
    }
  }

  lemma NamedIs(o: Origin, name: string)
    ensures var t := SpecTag(o.img.specTags, name);
            t.Some? ==> NamedRelease(o, name, PullSpecForTag(t.value, o.namespace, o.stream)) && t.value.name == name
    ensures SpecTag(o.img.specTags, name).Some? <==> HasSpec(o, name)
  {
    var i := SpecTagIsFirst(o.img.specTags, name);
    if SpecTag(o.img.specTags, name).Some? {
      PullSpecs(o, o.img.specTags[i], Item("", ""));
    }
  }

  lemma {:induction false} StatusItemIsFirst(tags: seq<StatusTag>, name: string) returns (i: int)
    ensures StatusItem(tags, name).Some? ==>
      FirstStatus(tags, name, i) && tags[i].items != [] && StatusItem(tags, name) == Some(tags[i].items[0])
    ensures StatusItem(tags, name).None? ==> forall j :: FirstStatus(tags, name, j) ==> tags[j].items == []
  {
    i := 0;
    if tags != [] && tags[0].name != name {
      i := StatusItemIsFirst(tags[1..], name);
      i := i + 1;
      forall j | FirstStatus(tags, name, j) ensures FirstStatus(tags[1..], name, j - 1) {
      }
    }
  }

  lemma StatusIs(o: Origin, name: string)
    ensures var item := StatusItem(o.img.statusTags, name);
            if item.Some? then StatusRelease(o, name, ItemSpec(item.value, o.namespace, o.stream))
            else NoStatus(o, name)
    ensures StatusItem(o.img.statusTags, name).Some? <==> HasStatus(o, name)
  {
    var i := StatusItemIsFirst(o.img.statusTags, name);
    if StatusItem(o.img.statusTags, name).Some? {
      PullSpecs(o, Tag("", false, "", "", None), o.img.statusTags[i].items[0]);
    }
  }

  lemma StableIs(env: Env, o: Origin, version: string, arch: string)
    ensures var t := env.newestStable(o.img, version, arch);
            t.Some? ==> StableRelease(env, o, version, arch, PullSpecForTag(t.value, o.namespace, o.stream))
  {
    var t := env.newestStable(o.img, version, arch);
    if t.Some? {
      PullSpecs(o, t.value, Item("", ""));
    }
  }

  /** What a version gets from a stream: nothing, a failure, or a release, and when. */
  lemma VersionVerdict(env: Env, arch: string, suffix: string, s: Source, name: string)
    requires s.content.Some? && IsMajorMinor(name) && (Self(arch) || s.amd64.Some?)
    ensures var v := TryMajorMinor(env, arch, suffix, s, s.content.value, name);
            && (v == Nothing <==> !Offers(env, arch, suffix, s, name))
            && (v == Failed <==> Offers(env, arch, suffix, s, name) && !Runnable(env, arch, suffix, s, name))
            && (v.Found? ==> VersionSourced(env, arch, suffix, s, name, v))
  {
    var own, amd := OwnOrigin(s), RunnerOrigin(s);
    NewestIs(own, name + ".0-0.nightly" + suffix);
    NewestIs(own, name + ".0-0.ci" + suffix);
    StableIs(env, own, name, arch);
    NewestIs(amd, name + ".0-0.nightly");
    NewestIs(amd, name + ".0-0.ci");
    StableIs(env, amd, name, "amd64");
  }

  lemma NightlyRunnerIs(env: Env, amd: Origin, name: string)
    requires amd.namespace == "ocp" && amd.stream == "release"
    ensures var r := NightlyRunner(env, amd.img, name); r.Some? ==> NightlyRun(env, amd, name, r.value)
    ensures NightlyRunner(env, amd.img, name).Some? <==> HasNightlyRun(env, amd, name)
  {
    var v := env.majorMinorOf(name);
    if v.Some? {
      NewestIs(amd, v.value + ".0-0.nightly");
    }
  }

  lemma NameSettled(env: Env, arch: string, suffix: string, s: Source, name: string)
    requires s.content.Some? && !IsMajorMinor(name) && (Self(arch) || s.amd64.Some?)
    ensures var v := TryName(env, arch, s, s.content.value, name);
            && (v == Nothing <==> !Offers(env, arch, suffix, s, name))
            && (v == Failed <==> Offers(env, arch, suffix, s, name) && !Runnable(env, arch, suffix, s, name))
  {
    var own, amd := OwnOrigin(s), RunnerOrigin(s);
    StatusIs(own, name);
    NewestIs(own, name);
    NamedIs(own, name);
    NightlyRunnerIs(env, amd, name);
    StatusIs(amd, name);
    NewestIs(amd, name);
    NamedIs(amd, name);
  }

  lemma NameIsSourced(env: Env, arch: string, s: Source, name: string)
    requires s.content.Some?
    ensures var v := TryName(env, arch, s, s.content.value, name); v.Found? ==> NameSourced(env, arch, s, name, v)
  {
    var own, amd := OwnOrigin(s), RunnerOrigin(s);
    StatusIs(own, name);
    NewestIs(own, name);
    NamedIs(own, name);
    NightlyRunnerIs(env, amd, name);
    StatusIs(amd, name);
    NewestIs(amd, name);
    NamedIs(amd, name);
  }

  lemma ExamineVerdict(env: Env, arch: string, suffix: string, s: Source, name: string)
    requires s.content.Some?
    ensures var v := Examine(env, arch, suffix, s, name);
            && (v == Nothing <==> !Stops(env, arch, suffix, s, name))
            && (v == Failed <==> Stops(env, arch, suffix, s, name) && !Runnable(env, arch, suffix, s, name))
            && (v.Found? ==> WellSourced(env, arch, suffix, s, name, v))
  {
    if Self(arch) || s.amd64.Some? {
      if IsMajorMinor(name) {
        VersionVerdict(env, arch, suffix, s, name);
      } else {
        NameSettled(env, arch, suffix, s, name);
        NameIsSourced(env, arch, s, name);
      }
    }
  }

  /** The search ends at stream `k` and at none before it. */
  ghost predicate Decides(env: Env, arch: string, suffix: string, sources: seq<Source>, name: string, k: int) {
    && 0 <= k < |sources| && Stops(env, arch, suffix, sources[k], name)
    && forall j :: 0 <= j < k ==> !Stops(env, arch, suffix, sources[j], name)
  }

  lemma {:induction false} FirstDecides(env: Env, arch: string, suffix: string, sources: seq<Source>, name: string)
    returns (k: int)
    ensures var v := FirstVerdict(env, arch, suffix, sources, name);
            if v == Nothing then forall s :: s in sources ==> !Stops(env, arch, suffix, s, name)
            else Decides(env, arch, suffix, sources, name, k) && v == Examine(env, arch, suffix, sources[k], name)
  {
    k := 0;
    if sources != [] {
      if sources[0].content.Some? {
        ExamineVerdict(env, arch, suffix, sources[0], name);
      }
      if !Stops(env, arch, suffix, sources[0], name) {
        k := FirstDecides(env, arch, suffix, sources[1..], name);
        k := k + 1;
        assert forall j :: 0 < j < |sources| ==> sources[j] == sources[1..][j - 1];
      }
    }
  }

  /** What a requested name stands for: the newest builds of the current release go by a word. */
  predicate StandsFor(env: Env, suffix: string, requested: string, name: string) {
    && (requested == "nightly" ==> name == env.current + ".0-0.nightly" + suffix)
    && (requested in ["ci", "prerelease"] ==> name == env.current + ".0-0.ci" + suffix)
    && (requested !in ["nightly", "ci", "prerelease"] ==> name == requested)
  }

  /**
   * The search finds nothing exactly when no readable stream has anything for the name and none
   * lacks the companion it needs. Otherwise the first such stream `k` decides: the verdict is a failure
   * exactly when the job cannot be run from there, and else a release of that stream: the newest
   * accepted tag of the requested release stream, the tag of the requested name or the stable pick, in
   * the order of preference; and it is run by itself on amd64 and multi, and by the matching release of
   * the stream's amd64 companion elsewhere, konflux names excepted.
   */
  lemma VerdictIff(env: Env, arch: string, suffix: string, sources: seq<Source>, requested: string, name: string)
    returns (k: int)
    requires StandsFor(env, suffix, requested, name)
    ensures var v := FirstVerdict(env, arch, suffix, sources, Rewrite(env, suffix, requested));
            && (v == Nothing <==> forall s :: s in sources ==> !Stops(env, arch, suffix, s, name))
            && (v != Nothing ==>
                  && Decides(env, arch, suffix, sources, name, k)
                  && (v == Failed <==> !Runnable(env, arch, suffix, sources[k], name))
                  && (v.Found? ==> WellSourced(env, arch, suffix, sources[k], name, v)))
  {
    assert name == Rewrite(env, suffix, requested);
    k := FirstDecides(env, arch, suffix, sources, name);
    if FirstVerdict(env, arch, suffix, sources, name) != Nothing {
      ExamineVerdict(env, arch, suffix, sources[k], name);
      assert sources[k] in sources;
    }
  }

  /** A version is two numbers with a dot between them. */
  lemma VersionIff(major: string, minor: string)
    requires '.' !in major && '.' !in minor
    ensures IsMajorMinor(major + "." + minor) <==>
            (major != "" && minor != "" && forall c :: c in major + minor ==> '0' <= c <= '9')
  {
    var s, n := major + "." + minor, |major|;
    assert s[n] == '.' && s[..n] == major && s[n + 1..] == minor;
    if IsMajorMinor(s) {
      assert forall j :: 0 <= j < n ==> major[j] == s[j];
      assert forall j :: 0 <= j < |minor| ==> minor[j] == s[n + 1 + j];
    }
    if major != "" && minor != "" && forall c :: c in major + minor ==> '0' <= c <= '9' {
      assert forall j :: 0 <= j < |s| && j != n ==> s[j] in major + minor;
    }
  }
}
