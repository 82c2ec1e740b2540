/**
 * Job parameters as text: `name` or `name=value`, separated by commas. The bot
 * keeps them in ProwJob annotations and reads them back after a restart.
 */
module JobParams {
  import opened GoStrings
  import opened Wrappers

  type Params = map<string, string>

  // ----- parsing -----

  /** The name and value of one part, unless the part or its name is empty. */
  function ParsePart(part: string): Option<(string, string)> {
    if part == "" then None
    else
      var i := IndexOf(part, '=');
      var name := TrimSpace(if i == -1 then part else part[..i]);
      if name == "" then None
      else Some((name, if i == -1 then "" else part[i + 1..]))
  }

  /** Later parts override earlier ones of the same name. */
  function ParseParts(parts: seq<string>, values: Params): Option<Params>
    decreases |parts|
  {
    if parts == [] then Some(values)
    else
      var p := ParsePart(parts[0]);
      if p.None? then None else ParseParts(parts[1..], values[p.value.0 := p.value.1])
  }

  function Parse(text: string): Option<Params> {
    if text == "" then Some(map[]) else ParseParts(Split(text, ','), map[])
  }

  method ParamsFromAnnotation(text: string) returns (result: Option<Params>)
    ensures result == Parse(text)
  {
    var values: Params := map[];
    if text == "" {
      return Some(values);
    }
    var parts := Split(text, ',');
    var i := 0;
    while i < |parts|
      invariant i <= |parts|
      invariant Parse(text) == ParseParts(parts[i..], values)
    {
      var p := ParsePart(parts[i]);
      assert parts[i..][1..] == parts[i + 1..];
      if p.None? {
        return None;
      }
      values := values[p.value.0 := p.value.1];
      i := i + 1;
    }
    result := Some(values);
  }

  // ----- printing -----

  function Pair(name: string, value: string): string {
    if value == "" then name else name + "=" + value
  }

  ghost predicate IsPairOf(m: Params, p: string) {
    exists k :: k in m && k != "" && p == Pair(k, m[k])
  }

  /** The pairs of a map, in any order; empty names are left out. */
  ghost predicate IsPairs(m: Params, parts: seq<string>) {
    && (forall p :: p in parts ==> IsPairOf(m, p))
    && (forall k :: k in m && k != "" ==> Pair(k, m[k]) in parts)
  }

  predicate Sorted(parts: seq<string>) {
    forall i, j :: 0 <= i < j < |parts| ==> LexLeq(parts[i], parts[j])
  }

  /** Puts `p` at its place in sorted `parts`. */
  method InsertSorted(parts: seq<string>, p: string) returns (result: seq<string>)
    requires Sorted(parts)
    ensures Sorted(result) && multiset(result) == multiset(parts) + multiset{p}
  {
    var i := 0;
    while i < |parts| && LexLeq(parts[i], p)
      invariant i <= |parts|
      invariant forall j :: 0 <= j < i ==> LexLeq(parts[j], p)
    {
      i := i + 1;
    }
    result := parts[..i] + [p] + parts[i..];
    assert parts == parts[..i] + parts[i..];
    forall j | i <= j < |parts| ensures LexLeq(p, parts[j]) {
      LexTotal(parts[i], p);
      if i < j {
        LexTransitive(p, parts[i], parts[j]);
      }
    }
  }

  method SortStrings(parts: seq<string>) returns (result: seq<string>)
    ensures Sorted(result) && multiset(result) == multiset(parts)
  {
    result := [];
    for i := 0 to |parts|
      invariant Sorted(result) && multiset(result) == multiset(parts[..i])
    {
      result := InsertSorted(result, parts[i]);
      assert parts[..i + 1] == parts[..i] + [parts[i]];
    }
    assert parts[..|parts|] == parts;
  }

  /** The pairs of the entries in `names`, each once. */
  ghost function PairBag(m: Params, names: set<string>): multiset<string>
    requires names <= m.Keys
    decreases |names|
  {
    if names == {} then multiset{}
    else var k :| k in names; multiset{Pair(k, m[k])} + PairBag(m, names - {k})
  }

  /** Any name can be taken out first. */
  lemma {:induction false} PairBagTake(m: Params, names: set<string>, k: string)
    requires names <= m.Keys && k in names
    ensures PairBag(m, names) == multiset{Pair(k, m[k])} + PairBag(m, names - {k})
    decreases |names|
  {
    var j :| j in names && PairBag(m, names) == multiset{Pair(j, m[j])} + PairBag(m, names - {j});
    if j != k {
      PairBagTake(m, names - {j}, k);
      PairBagTake(m, names - {k}, j);
      assert names - {j} - {k} == names - {k} - {j};
    }
  }

  /** The printed form: the sorted pairs of the named entries, joined. */
  ghost predicate IsPrinted(m: Params, text: string) {
    exists parts :: Sorted(parts) && multiset(parts) == PairBag(m, m.Keys - {""}) && text == Join(parts, ',')
  }

  /** Collects the pairs in the map's own order, which may be any, and joins them sorted. */
  method ParamsToString(m: Params) returns (text: string)
    ensures IsPrinted(m, text)
  {
    var pairs: seq<string> := [];
    var names := m.Keys;
    while names != {}
      invariant names <= m.Keys
      invariant multiset(pairs) + PairBag(m, names - {""}) == PairBag(m, m.Keys - {""})
      decreases |names|
    {
      var k :| k in names;
      if k != "" {
        PairBagTake(m, names - {""}, k);
        assert names - {""} - {k} == names - {k} - {""};
        pairs := pairs + [if m[k] == "" then k else k + "=" + m[k]];
      } else {
        assert names - {""} == names - {k} - {""};
      }
      names := names - {k};
    }
    var parts := SortStrings(pairs);
    assert multiset(parts) == PairBag(m, m.Keys - {""});
    text := Join(parts, ',');
  }

  lemma {:induction false} SortedUnique(a: seq<string>, b: seq<string>)
    requires Sorted(a) && Sorted(b) && multiset(a) == multiset(b)
    ensures a == b
    decreases |a|
  {
    assert |a| == |multiset(a)| == |multiset(b)| == |b|;
    if a != [] {
      assert a == [a[0]] + a[1..] && b == [b[0]] + b[1..];
      HeadsEqual(a, b);
      assert multiset(a[1..]) == multiset(a) - multiset{a[0]};
      assert multiset(b[1..]) == multiset(b) - multiset{b[0]};
      SortedUnique(a[1..], b[1..]);
    }
  }

  lemma HeadsEqual(a: seq<string>, b: seq<string>)
    requires Sorted(a) && Sorted(b) && multiset(a) == multiset(b) && a != [] && b != []
    ensures a[0] == b[0]
  {
    assert a[0] in multiset(b) && b[0] in multiset(a);
    var i :| 0 <= i < |b| && b[i] == a[0];
    var j :| 0 <= j < |a| && a[j] == b[0];
    if i > 0 && j > 0 {
      LexAntisymmetric(a[0], b[0]);
    }
  }

  /** Whatever the iteration order, a map has one printed form. */
  lemma PrintedUnique(m: Params, text1: string, text2: string)
    requires IsPrinted(m, text1) && IsPrinted(m, text2)
    ensures text1 == text2
  {
    var p1 :| Sorted(p1) && multiset(p1) == PairBag(m, m.Keys - {""}) && text1 == Join(p1, ',');
    var p2 :| Sorted(p2) && multiset(p2) == PairBag(m, m.Keys - {""}) && text2 == Join(p2, ',');
    SortedUnique(p1, p2);
  }

  lemma {:induction false} PairBagMembers(m: Params, names: set<string>, p: string)
    requires names <= m.Keys
    ensures p in PairBag(m, names) <==> exists k :: k in names && p == Pair(k, m[k])
    decreases |names|
  {
    if names != {} {
      var j :| j in names && PairBag(m, names) == multiset{Pair(j, m[j])} + PairBag(m, names - {j});
      PairBagMembers(m, names - {j}, p);
    }
  }

  lemma BagIsPairs(m: Params, parts: seq<string>)
    requires multiset(parts) == PairBag(m, m.Keys - {""})
    ensures IsPairs(m, parts)
  {
    forall p | p in parts ensures IsPairOf(m, p) {
      assert p in multiset(parts);
      PairBagMembers(m, m.Keys - {""}, p);
    }
    forall k | k in m && k != "" ensures Pair(k, m[k]) in parts {
      PairBagMembers(m, m.Keys - {""}, Pair(k, m[k]));
      assert Pair(k, m[k]) in multiset(parts);
    }
  }

  // ----- round trips -----

  /** What a parsed map looks like. */
  predicate WellFormed(m: Params) {
    forall k :: k in m ==> k != "" && Trimmed(k) && ',' !in k && '=' !in k && ',' !in m[k]
  }

  lemma PartWellFormed(part: string)
    requires ',' !in part
    ensures var p := ParsePart(part);
            p.Some? ==>
              && p.value.0 != "" && Trimmed(p.value.0)
              && ',' !in p.value.0 && '=' !in p.value.0 && ',' !in p.value.1
  {
  }

  lemma {:induction false} PartsWellFormed(parts: seq<string>, values: Params)
    requires WellFormed(values) && forall p :: p in parts ==> ',' !in p
    ensures ParseParts(parts, values).Some? ==> WellFormed(ParseParts(parts, values).value)
    decreases |parts|
  {
    if parts != [] {
      var p := ParsePart(parts[0]);
      PartWellFormed(parts[0]);
      if p.Some? {
        PartsWellFormed(parts[1..], values[p.value.0 := p.value.1]);
      }
    }
  }

  lemma ParsedIsWellFormed(text: string)
    ensures Parse(text).Some? ==> WellFormed(Parse(text).value)
  {
    if text != "" {
      PartsWellFormed(Split(text, ','), map[]);
    }
  }

  lemma ParsePair(name: string, value: string)
    requires name != "" && Trimmed(name) && '=' !in name
    ensures ParsePart(Pair(name, value)) == Some((name, value))
  {
    if value != "" {
      var s := Pair(name, value);
      assert s[|name|] == '=' && s[..|name|] == name && s[|name| + 1..] == value;
      IndexOfFirst(s, '=', |name|);
    }
  }

  /** Parsing pairs of `m` adds those entries of `m`, whatever their order and repetition. */
  lemma {:induction false} ParsePairs(m: Params, parts: seq<string>, values: Params)
    requires WellFormed(m)
    requires forall p :: p in parts ==> IsPairOf(m, p)
    requires forall k :: k in values ==> k in m && values[k] == m[k]
    ensures var r := ParseParts(parts, values);
            && r.Some?
            && (forall k :: k in r.value ==> k in m && r.value[k] == m[k])
            && (forall k :: k in values ==> k in r.value)
            && (forall k :: k in m && Pair(k, m[k]) in parts ==> k in r.value)
    decreases |parts|
  {
    if parts != [] {
      assert IsPairOf(m, parts[0]);
      var k :| k in m && k != "" && parts[0] == Pair(k, m[k]);
      ParsePair(k, m[k]);
      var values' := values[k := m[k]];
      ParsePairs(m, parts[1..], values');
      forall j | j in m && Pair(j, m[j]) in parts && Pair(j, m[j]) !in parts[1..] ensures j == k {
        ParsePair(j, m[j]);
      }
    }
  }

  lemma JoinNonEmpty(parts: seq<string>)
    requires parts != [] && parts[0] != ""
    ensures Join(parts, ',') != ""
  {
  }

  lemma PairPlain(m: Params, p: string)
    requires WellFormed(m) && IsPairOf(m, p)
    ensures ',' !in p && p != ""
  {
    var k :| k in m && k != "" && p == Pair(k, m[k]);
  }

  lemma AllPairsParsed(m: Params, parts: seq<string>)
    requires IsPairs(m, parts) && WellFormed(m)
    ensures ParseParts(parts, map[]) == Some(m)
  {
    var r := ParseParts(parts, map[]);
    assert r.Some? && r.value.Keys == m.Keys && forall k :: k in r.value ==> r.value[k] == m[k] by {
      ParsePairs(m, parts, map[]);
      forall k | k in m ensures k in r.value {
        assert Pair(k, m[k]) in parts;
      }
    }
    SameMap(r.value, m);
  }

  lemma SameMap(a: Params, b: Params)
    requires a.Keys == b.Keys && forall k :: k in a ==> a[k] == b[k]
    ensures a == b
  {
  }

  lemma PairsJoined(m: Params, parts: seq<string>)
    requires IsPairs(m, parts) && WellFormed(m) && parts != []
    ensures Join(parts, ',') != "" && Split(Join(parts, ','), ',') == parts
  {
    forall p | p in parts ensures ',' !in p && p != "" {
      PairPlain(m, p);
    }
    assert parts[0] in parts;
    JoinNonEmpty(parts);
    SplitJoin(parts, ',');
  }

  lemma WellFormedPrintParse(m: Params, parts: seq<string>)
    requires IsPairs(m, parts) && WellFormed(m)
    ensures Parse(Join(parts, ',')) == Some(m)
  {
    AllPairsParsed(m, parts);
    if parts != [] {
      PairsJoined(m, parts);
    }
  }

  /** Any order of a map's pairs parses back to the map exactly when its names and values are plain. */
  lemma PairsParse(m: Params, parts: seq<string>)
    requires IsPairs(m, parts)
    ensures Parse(Join(parts, ',')) == Some(m) <==> WellFormed(m)
  {
    ParsedIsWellFormed(Join(parts, ','));
    if WellFormed(m) {
      WellFormedPrintParse(m, parts);
    }
  }

  /** A printed map parses back to itself exactly when its names and values are plain. */
  lemma PrintParse(m: Params, text: string)
    requires IsPrinted(m, text)
    ensures Parse(text) == Some(m) <==> WellFormed(m)
  {
    var parts :| Sorted(parts) && multiset(parts) == PairBag(m, m.Keys - {""}) && text == Join(parts, ',');
    BagIsPairs(m, parts);
    PairsParse(m, parts);
  }

  /** Any accepted text survives being parsed, printed and parsed again. */
  lemma ParsePrintParse(text: string, printed: string)
    requires Parse(text).Some? && IsPrinted(Parse(text).value, printed)
    ensures Parse(printed) == Parse(text)
  {
    ParsedIsWellFormed(text);
    PrintParse(Parse(text).value, printed);
  }

  // ----- what a text says -----

  /** A part gives `name` the value after its first `=`, or none; spaces around the name do not count. */
  predicate Spells(part: string, raw: string, name: string, value: string) {
    && '=' !in raw && TrimSpace(raw) == name && name != ""
    && (part == raw + "=" + value || (part == raw && value == ""))
  }

  lemma PartIff(part: string, raw: string, name: string, value: string)
    requires '=' !in raw && (part == raw + "=" + value || (part == raw && value == ""))
    ensures ParsePart(part) == Some((name, value)) <==> Spells(part, raw, name, value)
    ensures ParsePart(part).Some? <==> TrimSpace(raw) != ""
  {
    if part == raw + "=" + value {
      assert part[|raw|] == '=' && part[..|raw|] == raw && part[|raw| + 1..] == value;
      IndexOfFirst(part, '=', |raw|);
    }
    assert part == "" ==> raw == "" && TrimSpace(raw) == "";
  }

  predicate Names(part: string, name: string) {
    ParsePart(part).Some? && ParsePart(part).value.0 == name
  }

  /** The last part of this name. */
  predicate LastNamed(parts: seq<string>, name: string, i: int) {
    && 0 <= i < |parts| && Names(parts[i], name)
    && forall j :: i < j < |parts| ==> !Names(parts[j], name)
  }

  lemma {:induction false} PartsExactly(parts: seq<string>, values: Params, name: string, i: int)
    ensures ParseParts(parts, values).Some? <==> forall p :: p in parts ==> ParsePart(p).Some?
    ensures ParseParts(parts, values).Some? && LastNamed(parts, name, i) ==>
      && name in ParseParts(parts, values).value
      && ParseParts(parts, values).value[name] == ParsePart(parts[i]).value.1
    ensures ParseParts(parts, values).Some? && (forall p :: p in parts ==> !Names(p, name)) ==>
      && (name in ParseParts(parts, values).value <==> name in values)
      && (name in values ==> ParseParts(parts, values).value[name] == values[name])
    decreases |parts|
  {
    if parts != [] {
      var p := ParsePart(parts[0]);
      assert parts == [parts[0]] + parts[1..];
      if p.Some? {
        var values' := values[p.value.0 := p.value.1];
        PartsExactly(parts[1..], values', name, i - 1);
        assert Names(parts[0], name) <==> name == p.value.0;
        assert parts[0] in parts && forall q :: q in parts[1..] ==> q in parts;
        assert forall j :: 0 < j < |parts| ==> parts[j] == parts[1..][j - 1];
      }
    }
  }

  /**
   * A text is refused exactly when one of its parts names nothing. Otherwise a name has the value
   * its last part spells, and no other names are there.
   */
  lemma ParseExactly(parts: seq<string>, name: string, i: int, raw: string, value: string)
    requires (forall p :: p in parts ==> ',' !in p) && Join(parts, ',') != ""
    ensures var r := Parse(Join(parts, ','));
            && (r.None? <==> exists p :: p in parts && ParsePart(p).None?)
            && (r.Some? && LastNamed(parts, name, i) && Spells(parts[i], raw, name, value) ==>
                  name in r.value && r.value[name] == value)
            && (r.Some? && (forall p :: p in parts ==> !Names(p, name)) ==> name !in r.value)
  {
    SplitJoin(parts, ',');
    PartsExactly(parts, map[], name, i);
    if LastNamed(parts, name, i) && Spells(parts[i], raw, name, value) {
      PartIff(parts[i], raw, name, value);
    }
  }
}
