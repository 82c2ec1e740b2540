/**
 * Service-account names of the GCP access manager: the user name is written
 * with `-dash-` for `-` and `-dot-` for `.`, then `-` and a Unix timestamp.
 */
module AccountNames {
  import opened GoStrings

  const DOMAIN := "redhat.com"

  // Account names have at most 30 characters, 11 of them for `-` and the timestamp.
  const MAX_USERNAME := 30 - 11

  function RedHatEmail(name: string): string {
    name + "@" + DOMAIN
  }

  function Encode(name: string): string {
    ReplaceAll(ReplaceAll(name, "-", "-dash-"), ".", "-dot-")
  }

  function Undot(s: string): string {
    ReplaceAll(s, "-dot-", ".")
  }

  function Undash(s: string): string {
    ReplaceAll(s, "-dash-", "-")
  }

  /** An email without exactly one `@` is encoded as a whole. */
  function SanitizeUsername(email: string): string {
    var parts := Split(email, '@');
    Encode(ToLower(if |parts| != 2 then email else parts[0]))
  }

  function UnsanitizeUsername(sanitized: string): string {
    RedHatEmail(Undash(Undot(sanitized)))
  }

  predicate NeedsDisplayNameFallback(email: string) {
    |SanitizeUsername(email)| > MAX_USERNAME
  }

  function Decimal(n: nat): string {
    if n < 10 then [('0' as int + n) as char]
    else Decimal(n / 10) + [('0' as int + n % 10) as char]
  }

  /** The part of an account ID before the time. */
  function AccountBase(email: string): string {
    var encoded := SanitizeUsername(email);
    var flat := ToLower(ReplaceAll(ReplaceAll(email, "@", "-"), ".", "-"));
    if |encoded| <= MAX_USERNAME then encoded
    else if |flat| > MAX_USERNAME then flat[..MAX_USERNAME]
    else flat
  }

  /** The account ID requested for `email` at Unix time `stamp`. */
  function AccountId(email: string, stamp: nat): string {
    AccountBase(email) + "-" + Decimal(stamp)
  }

  /** The email GCP gives an account of a project. */
  function AccountEmail(accountId: string, project: string): string {
    accountId + "@" + (project + ".iam.gserviceaccount.com")
  }

  predicate AllDigits(s: string) {
    forall i :: 0 <= i < |s| ==> '0' <= s[i] <= '9'
  }

  /** The user an account email stands for, or "" when it has another shape. */
  function UserEmailOf(accountEmail: string): string {
    var parts := Split(accountEmail, '@');
    if |parts| != 2 then "" else UserOfAccountId(parts[0])
  }

  function UserOfAccountId(id: string): string {
    if |id| < 11 then ""
    else
      var hyphen := LastIndexOf(id, '-');
      if hyphen == -1 then ""
      else if |id[hyphen + 1..]| != 10 || !AllDigits(id[hyphen + 1..]) then ""
      else UnsanitizeUsername(id[..hyphen])
  }

  // ----- when decoding undoes encoding -----

  /** What one character becomes. */
  function EncodeChar(c: char): string {
    if c == '-' then "-dash-" else if c == '.' then "-dot-" else [c]
  }

  lemma {:induction false} EncodeHead(name: string)
    requires name != ""
    ensures Encode(name) == EncodeChar(name[0]) + Encode(name[1..])
  {
    var tail := ReplaceAll(name[1..], "-", "-dash-");
    var head := if name[0] == '-' then "-dash-" else [name[0]];
    assert HasPrefix(name, "-") <==> name[0] == '-';
    assert ReplaceAll(name, "-", "-dash-") == head + tail;
    ReplaceCharConcat(head, tail, '.', "-dot-");
    if name[0] == '-' {
      NoDots(head);
    } else {
      assert [name[0]][1..] == "";
      assert ReplaceAll("", ".", "-dot-") == "";
      assert HasPrefix([name[0]], ".") <==> name[0] == '.';
    }
  }

  lemma NoDots(s: string)
    requires '.' !in s
    ensures ReplaceAll(s, ".", "-dot-") == s
    decreases |s|
  {
    if s != "" {
      assert s[0] != '.';
      NoDots(s[1..]);
    }
  }

  /** A name whose head would be misread: its hyphen and the `dot` after it. */
  predicate MisreadAtHead(name: string) {
    name != "" && name[0] == '-' && StartsDot(name[1..])
  }

  /** Encoding keeps a plain leading character in front. */
  lemma EncodePrefix(name: string, c: char, p: string)
    requires c != '-' && c != '.'
    ensures HasPrefix(Encode(name), [c] + p) <==> name != "" && name[0] == c && HasPrefix(Encode(name[1..]), p)
  {
    PrefixStep(Encode(name), c, p);
    if name == "" {
      assert Encode(name) == "";
    } else {
      EncodeHead(name);
      if EncodeChar(name[0]) == [name[0]] {
        assert Encode(name)[1..] == Encode(name[1..]);
      }
    }
  }

  lemma EncodeHyphen(name: string)
    ensures HasPrefix(Encode(name), "-") <==> name != "" && (name[0] == '-' || name[0] == '.')
  {
    if name == "" {
      assert Encode(name) == "";
    } else {
      EncodeHead(name);
    }
  }

  predicate StartsDot(name: string) {
    |name| > 3 && name[0] == 'd' && name[1] == 'o' && name[2] == 't' && (name[3] == '-' || name[3] == '.')
  }

  /** The encoded text continues with `dot-` only for a misread name. */
  lemma EncodeStartsWithDot(name: string)
    ensures HasPrefix(Encode(name), "dot-") <==> StartsDot(name)
  {
    EncodePrefix(name, 'd', "ot-");
    assert ['d'] + "ot-" == "dot-";
    if name != "" && name[0] == 'd' {
      EncodePrefix(name[1..], 'o', "t-");
      assert ['o'] + "t-" == "ot-";
      if name[1..] != "" && name[1] == 'o' {
        assert name[1..][1..] == name[2..];
        EncodePrefix(name[2..], 't', "-");
        assert ['t'] + "-" == "t-";
        if name[2..] != "" && name[2] == 't' {
          assert name[2..][1..] == name[3..];
          EncodeHyphen(name[3..]);
        }
      }
    }
  }

  /** A prefix without a hyphen is passed over by both decoders. */
  lemma {:induction false} SkipPlain(s: string, rest: string)
    requires '-' !in s
    ensures Undot(s + rest) == s + Undot(rest)
    ensures Undash(s + rest) == s + Undash(rest)
    decreases |s|
  {
    if s == "" {
      assert s + rest == rest;
    } else {
      assert (s + rest)[0] == s[0];
      assert !HasPrefix(s + rest, "-dot-") && !HasPrefix(s + rest, "-dash-");
      assert (s + rest)[1..] == s[1..] + rest;
      SkipPlain(s[1..], rest);
      assert s == [s[0]] + s[1..];
    }
  }

  /** An encoded hyphen is undone unless a `-dot-` starts at its last character. */
  lemma UndotDash(rest: string)
    ensures Undot("-dash-" + rest) ==
            if HasPrefix(rest, "dot-") then "-dash." + Undot(rest[4..]) else "-dash-" + Undot(rest)
  {
    var s := "-dash-" + rest;
    assert s[1..] == "dash" + ("-" + rest);
    assert !HasPrefix(s, "-dot-") by { assert s[2] == 'a'; }
    SkipPlain("dash", "-" + rest);
    var t := "-" + rest;
    assert t[1..] == rest;
    PrefixStep(t, '-', "dot-");
    assert ['-'] + "dot-" == "-dot-";
    if HasPrefix(rest, "dot-") {
      assert t[5..] == rest[4..];
    }
  }

  lemma UndashDash(rest: string)
    ensures Undash("-dash-" + rest) == "-" + Undash(rest)
  {
    assert ("-dash-" + rest)[6..] == rest;
  }

  lemma UndotDot(rest: string)
    ensures Undot("-dot-" + rest) == "." + Undot(rest)
  {
    assert ("-dot-" + rest)[5..] == rest;
  }

  /** Decoding an encoded name follows the name character by character, up to a misread. */
  lemma {:induction false} DecodeHead(name: string)
    requires name != "" && !MisreadAtHead(name)
    ensures Undash(Undot(Encode(name))) == [name[0]] + Undash(Undot(Encode(name[1..])))
  {
    var rest := Encode(name[1..]);
    EncodeHead(name);
    if name[0] == '-' {
      EncodeStartsWithDot(name[1..]);
      UndotDash(rest);
      UndashDash(Undot(rest));
    } else if name[0] == '.' {
      UndotDot(rest);
      SkipPlain(".", Undot(rest));
    } else {
      SkipPlain([name[0]], rest);
      SkipPlain([name[0]], Undot(rest));
    }
  }

  lemma DecodeMisread(name: string)
    requires MisreadAtHead(name)
    ensures Undash(Undot(Encode(name))) != name
  {
    var rest := Encode(name[1..]);
    EncodeHead(name);
    EncodeStartsWithDot(name[1..]);
    UndotDash(rest);
    UndashCut(Undot(rest[4..]));
    assert name[2] == name[1..][1] == 'o';
  }

  lemma UndashCut(tail: string)
    ensures |Undash("-dash." + tail)| > 2 && Undash("-dash." + tail)[2] == 'a'
  {
    var s := "-dash." + tail;
    assert !HasPrefix(s, "-dash-") by { assert s[5] == '.'; }
    assert s[1..] == "dash." + tail;
    SkipPlain("dash.", tail);
  }

  /** The user names on which the encoding can be undone. */
  predicate Reversible(name: string) {
    !Contains(name, "-dot-") && !Contains(name, "-dot.")
  }

  lemma MisreadPrefix(name: string)
    ensures MisreadAtHead(name) <==> HasPrefix(name, "-dot-") || HasPrefix(name, "-dot.")
  {
    if |name| >= 5 {
      assert name[..5] == [name[0], name[1], name[2], name[3], name[4]];
    }
  }

  lemma ReversibleHead(name: string)
    requires name != ""
    ensures Reversible(name) <==> !MisreadAtHead(name) && Reversible(name[1..])
  {
    ContainsStep(name, "-dot-");
    ContainsStep(name, "-dot.");
    MisreadPrefix(name);
  }

  /** Decoding undoes encoding exactly on the reversible names. */
  lemma {:induction false} DecodeEncode(name: string)
    ensures Undash(Undot(Encode(name))) == name <==> Reversible(name)
    decreases |name|
  {
    if name == "" {
      assert Encode(name) == "";
    } else {
      ReversibleHead(name);
      if MisreadAtHead(name) {
        DecodeMisread(name);
      } else {
        DecodeHead(name);
        DecodeEncode(name[1..]);
        assert name == [name[0]] + name[1..];
      }
    }
  }

  // ----- whole account emails -----

  predicate NoUpper(s: string) {
    forall i :: 0 <= i < |s| ==> !('A' <= s[i] <= 'Z')
  }

  lemma LowerIsIdentity(s: string)
    requires NoUpper(s)
    ensures ToLower(s) == s
  {
    if s != "" {
      LowerIsIdentity(s[1..]);
    }
  }

  lemma {:induction false} EncodeNoAt(name: string)
    requires '@' !in name
    ensures '@' !in Encode(name)
    decreases |name|
  {
    if name == "" {
      assert Encode(name) == "";
    } else {
      EncodeHead(name);
      EncodeNoAt(name[1..]);
    }
  }

  function Pow10(k: nat): nat {
    if k == 0 then 1 else 10 * Pow10(k - 1)
  }

  lemma {:induction false} DecimalDigits(n: nat, k: nat)
    requires k >= 1 && n < Pow10(k) && (k == 1 || Pow10(k - 1) <= n)
    ensures |Decimal(n)| == k && AllDigits(Decimal(n))
  {
    if k > 1 {
      assert 10 <= n by { assert Pow10(k - 1) == 10 * Pow10(k - 2); PowPositive(k - 2); }
      DecimalDigits(n / 10, k - 1);
    } else {
      assert Pow10(1) == 10 * Pow10(0);
    }
  }

  lemma PowPositive(k: nat)
    ensures Pow10(k) >= 1
  {
  }

  lemma TenDigits(stamp: nat)
    requires 1_000_000_000 <= stamp < 10_000_000_000
    ensures |Decimal(stamp)| == 10 && AllDigits(Decimal(stamp))
  {
    TenPowers();
    DecimalDigits(stamp, 10);
  }

  lemma {:induction false} DecimalIsDigits(n: nat)
    ensures Decimal(n) != "" && AllDigits(Decimal(n))
  {
    if n >= 10 {
      DecimalIsDigits(n / 10);
    }
  }

  lemma {:induction false} DecimalAtLeast(n: nat, k: nat)
    ensures |Decimal(n)| > k <==> Pow10(k) <= n || k == 0
    decreases k
  {
    DecimalIsDigits(n / 10);
    if k > 0 {
      PowPositive(k - 1);
      if n >= 10 {
        DecimalAtLeast(n / 10, k - 1);
      }
    }
  }

  lemma NotTenDigits(stamp: nat)
    requires !(1_000_000_000 <= stamp < 10_000_000_000)
    ensures |Decimal(stamp)| != 10
  {
    TenPowers();
    DecimalAtLeast(stamp, 9);
    DecimalAtLeast(stamp, 10);
  }

  lemma TenPowers()
    ensures Pow10(9) == 1_000_000_000 && Pow10(10) == 10_000_000_000
  {
    assert Pow10(3) == 1000;
    assert Pow10(6) == 1000_000 by { assert Pow10(5) == 100_000; }
    assert Pow10(9) == 1000_000_000 by { assert Pow10(8) == 100_000_000; }
  }

  /** Different times have different names. */
  lemma {:induction false} DecimalInjective(m: nat, n: nat)
    requires Decimal(m) == Decimal(n)
    ensures m == n
    decreases m
  {
    var a, b := Decimal(m), Decimal(n);
    assert |Decimal(m / 10)| > 0 && |Decimal(n / 10)| > 0;
    assert a[|a| - 1] as int - '0' as int == m % 10 && b[|b| - 1] as int - '0' as int == n % 10;
    if m >= 10 && n >= 10 {
      assert a[..|a| - 1] == Decimal(m / 10) && b[..|b| - 1] == Decimal(n / 10);
      DecimalInjective(m / 10, n / 10);
    }
  }

  lemma AccountsDiffer(email: string, project: string, m: nat, n: nat)
    requires m != n
    ensures AccountEmail(AccountId(email, m), project) != AccountEmail(AccountId(email, n), project)
  {
    var x, y := AccountId(email, m), AccountId(email, n);
    if AccountEmail(x, project) == AccountEmail(y, project) {
      SameAccountId(x, y, project);
      SameTail(AccountBase(email) + "-", Decimal(m), Decimal(n));
      DecimalInjective(m, n);
    }
  }

  lemma SameAccountId(x: string, y: string, project: string)
    requires AccountEmail(x, project) == AccountEmail(y, project)
    ensures x == y
  {
    var tail := project + ".iam.gserviceaccount.com";
    assert |AccountEmail(x, project)| == |x| + 1 + |tail| && |AccountEmail(y, project)| == |y| + 1 + |tail|;
    assert x == AccountEmail(x, project)[..|x|] && y == AccountEmail(y, project)[..|y|];
  }

  lemma SameTail(head: string, x: string, y: string)
    requires head + x == head + y
    ensures x == y
  {
    assert x == (head + x)[|head|..] && y == (head + y)[|head|..];
  }

  /** Some time gives an account name outside any finite set. */
  lemma FreshStamp(email: string, project: string, used: set<string>) returns (stamp: nat)
    ensures AccountEmail(AccountId(email, stamp), project) !in used
  {
    var bound := LengthBound(used);
    PowPositive(bound);
    DecimalDigits(Pow10(bound), bound + 1);
    stamp := Pow10(bound);
    assert |AccountEmail(AccountId(email, stamp), project)| > bound;
  }

  lemma {:induction false} LengthBound(used: set<string>) returns (bound: nat)
    ensures forall s :: s in used ==> |s| <= bound
  {
    bound := 0;
    if used != {} {
      var s :| s in used;
      var rest := LengthBound(used - {s});
      bound := if |s| > rest then |s| else rest;
    }
  }

  lemma SplitAtSign(a: string, b: string)
    requires '@' !in a && '@' !in b
    ensures Split(a + "@" + b, '@') == [a, b]
  {
    SplitJoin([a, b], '@');
    assert Join([a, b], '@') == a + "@" + b;
  }

  lemma SanitizedRedHat(name: string)
    requires '@' !in name
    ensures SanitizeUsername(RedHatEmail(name)) == Encode(ToLower(name))
  {
    SplitAtSign(name, DOMAIN);
  }

  lemma ShortAccountId(name: string, stamp: nat)
    requires '@' !in name
    requires !NeedsDisplayNameFallback(RedHatEmail(name))
    ensures AccountId(RedHatEmail(name), stamp) == Encode(ToLower(name)) + "-" + Decimal(stamp)
  {
    SanitizedRedHat(name);
  }

  lemma LowerHasNoUpper(s: string)
    ensures NoUpper(ToLower(s)) && ('@' !in s ==> '@' !in ToLower(s))
    ensures ToLower(s) == s <==> NoUpper(s)
  {
    forall i | 0 <= i < |s| ensures ToLower(s)[i] == LowerOf(s[i]) {
      LowerAt(s, i);
    }
    if NoUpper(s) {
      LowerIsIdentity(s);
    }
  }

  lemma {:induction false} ReplaceNoUpper(s: string, pat: string, rep: string)
    requires pat != "" && NoUpper(s) && NoUpper(rep)
    ensures NoUpper(ReplaceAll(s, pat, rep))
    decreases |s|
  {
    if s != "" {
      if HasPrefix(s, pat) {
        ReplaceNoUpper(s[|pat|..], pat, rep);
      } else {
        ReplaceNoUpper(s[1..], pat, rep);
      }
    }
  }

  /** Decoding brings no capitals back. */
  lemma DecodedHasNoUpper(name: string)
    requires NoUpper(name)
    ensures NoUpper(Undash(Undot(Encode(name))))
  {
    ReplaceNoUpper(name, "-", "-dash-");
    ReplaceNoUpper(ReplaceAll(name, "-", "-dash-"), ".", "-dot-");
    ReplaceNoUpper(Encode(name), "-dot-", ".");
    ReplaceNoUpper(Undot(Encode(name)), "-dash-", "-");
  }

  lemma UserOfStamped(base: string, digits: string)
    requires |digits| == 10 && AllDigits(digits)
    ensures UserOfAccountId(base + "-" + digits) == UnsanitizeUsername(base)
  {
    var id := base + "-" + digits;
    assert id[|base| + 1..] == digits;
    LastIndexOfLast(id, '-', |base|);
    assert id[..|base|] == base;
  }

  /** An ID whose time has another length decodes to nobody. */
  lemma OtherStamp(base: string, digits: string)
    requires |digits| != 10 && AllDigits(digits)
    ensures UserOfAccountId(base + "-" + digits) == ""
  {
    var id := base + "-" + digits;
    assert id[|base| + 1..] == digits;
    LastIndexOfLast(id, '-', |base|);
  }

  lemma SanitizedAt(name: string, domain: string)
    requires '@' !in name && '@' !in domain
    ensures SanitizeUsername(name + "@" + domain) == Encode(ToLower(name))
  {
    SplitAtSign(name, domain);
  }

  /** The domain leaves no trace in the account ID. */
  lemma DomainIgnored(name: string, domain: string, stamp: nat)
    requires '@' !in name && '@' !in domain
    requires !NeedsDisplayNameFallback(RedHatEmail(name))
    ensures AccountId(name + "@" + domain, stamp) == AccountId(RedHatEmail(name), stamp)
  {
    SanitizedAt(name, domain);
    SanitizedRedHat(name);
    SameShortId(name + "@" + domain, RedHatEmail(name), stamp);
  }

  lemma SameShortId(x: string, y: string, stamp: nat)
    requires SanitizeUsername(x) == SanitizeUsername(y) && !NeedsDisplayNameFallback(y)
    ensures AccountId(x, stamp) == AccountId(y, stamp)
  {
  }

  lemma UserOfEmail(id: string, project: string)
    requires '@' !in id && '@' !in project
    ensures UserEmailOf(AccountEmail(id, project)) == UserOfAccountId(id)
  {
    SplitAtSign(id, project + ".iam.gserviceaccount.com");
  }

  lemma OddTimeDecodesToNobody(name: string, stamp: nat, project: string)
    requires '@' !in name && '@' !in project
    requires !NeedsDisplayNameFallback(RedHatEmail(name))
    requires !(1_000_000_000 <= stamp < 10_000_000_000)
    ensures UserEmailOf(AccountEmail(AccountId(RedHatEmail(name), stamp), project)) == ""
  {
    var digits := Decimal(stamp);
    ShortAccountId(name, stamp);
    LowerHasNoUpper(name);
    DecimalIsDigits(stamp);
    NotTenDigits(stamp);
    EncodeNoAt(ToLower(name));
    OtherStamp(Encode(ToLower(name)), digits);
    UserOfEmail(Encode(ToLower(name)) + "-" + digits, project);
  }

  lemma StampedDecodes(base: string, digits: string, project: string)
    requires '@' !in base && '@' !in project && |digits| == 10 && AllDigits(digits)
    ensures UserEmailOf(AccountEmail(base + "-" + digits, project)) == UnsanitizeUsername(base)
  {
    UserOfStamped(base, digits);
    UserOfEmail(base + "-" + digits, project);
  }

  lemma DecodedAccount(name: string, stamp: nat, project: string)
    requires '@' !in name && '@' !in project && !NeedsDisplayNameFallback(RedHatEmail(name))
    requires 1_000_000_000 <= stamp < 10_000_000_000
    ensures UserEmailOf(AccountEmail(AccountId(RedHatEmail(name), stamp), project))
         == RedHatEmail(Undash(Undot(Encode(ToLower(name)))))
  {
    ShortAccountId(name, stamp);
    LowerHasNoUpper(name);
    TenDigits(stamp);
    EncodeNoAt(ToLower(name));
    StampedDecodes(Encode(ToLower(name)), Decimal(stamp), project);
  }

  /**
   * The account built for `name@redhat.com` at a ten-digit time decodes to that
   * email exactly when `name` is in lower case and contains neither `-dot-` nor `-dot.`;
   * with capitals it decodes to the email in lower case instead.
   */
  lemma AccountNameRoundTrip(name: string, stamp: nat, project: string)
    requires '@' !in name && '@' !in project
    requires forall c :: c in name ==> c as int < 128
    requires !NeedsDisplayNameFallback(RedHatEmail(name))
    requires 1_000_000_000 <= stamp < 10_000_000_000
    ensures UserEmailOf(AccountEmail(AccountId(RedHatEmail(name), stamp), project)) == RedHatEmail(name)
            <==> NoUpper(name) && Reversible(name)
    ensures UserEmailOf(AccountEmail(AccountId(RedHatEmail(name), stamp), project)) == RedHatEmail(ToLower(name))
            <==> Reversible(ToLower(name))
  {
    var low := ToLower(name);
    DecodedAccount(name, stamp, project);
    LowerHasNoUpper(name);
    DecodedHasNoUpper(low);
    DecodeEncode(low);
    SameEmail(Undash(Undot(Encode(low))), low);
    SameEmail(Undash(Undot(Encode(low))), name);
  }

  lemma SameEmail(a: string, b: string)
    ensures RedHatEmail(a) == RedHatEmail(b) <==> a == b
  {
    var x, y := RedHatEmail(a), RedHatEmail(b);
    assert x[..|a|] == a && y[..|b|] == b;
    assert |x| == |a| + 1 + |DOMAIN| && |y| == |b| + 1 + |DOMAIN|;
  }

  /** Not every user name survives: `a-dot-b` comes back as something else. */
  lemma MisreadName(stamp: nat, project: string)
    requires 1_000_000_000 <= stamp < 10_000_000_000 && '@' !in project
    ensures !NeedsDisplayNameFallback(RedHatEmail("a-dot-b"))
    ensures UserEmailOf(AccountEmail(AccountId(RedHatEmail("a-dot-b"), stamp), project)) != RedHatEmail("a-dot-b")
  {
    var name := "a-dot-b";
    MisreadNamePlain(name);
    MisreadLength();
    ShortFits(name);
    AccountNameRoundTrip(name, stamp, project);
  }

  lemma MisreadNamePlain(name: string)
    requires name == "a-dot-b"
    ensures '@' !in name && NoUpper(name) && (forall c :: c in name ==> c as int < 128) && !Reversible(name)
  {
    assert HasPrefix(name[1..], "-dot-");
  }

  lemma ShortFits(name: string)
    requires '@' !in name && NoUpper(name) && EncodedLength(name) <= MAX_USERNAME
    ensures !NeedsDisplayNameFallback(RedHatEmail(name))
  {
    EncodedLengthIs(name);
    LowerIsIdentity(name);
    SanitizedRedHat(name);
  }

  function EncodedLength(name: string): nat {
    if name == "" then 0 else |EncodeChar(name[0])| + EncodedLength(name[1..])
  }

  lemma {:induction false} EncodedLengthIs(name: string)
    ensures |Encode(name)| == EncodedLength(name)
  {
    if name == "" {
      assert Encode(name) == "";
    } else {
      EncodeHead(name);
      EncodedLengthIs(name[1..]);
    }
  }

  lemma LengthStep(name: string, tail: string)
    requires name != "" && name[1..] == tail
    ensures EncodedLength(name) == |EncodeChar(name[0])| + EncodedLength(tail)
  {
  }

  lemma MisreadLength()
    ensures EncodedLength("a-dot-b") == 17
  {
    LengthStep("a-dot-b", "-dot-b");
    LengthStep("-dot-b", "dot-b");
    LengthStep("dot-b", "ot-b");
    LengthStep("ot-b", "t-b");
    LengthStep("t-b", "-b");
    LengthStep("-b", "b");
    LengthStep("b", "");
  }

  // ----- the shape of account names -----

  /** What the email of a user with a long name becomes, character by character. */
  function FlatChar(c: char): char {
    if c == '@' || c == '.' then '-' else LowerOf(c)
  }

  lemma {:induction false} ReplaceCharAt(s: string, c: char, d: char, i: nat)
    requires i < |s|
    ensures |ReplaceAll(s, [c], [d])| == |s|
    ensures ReplaceAll(s, [c], [d])[i] == if s[i] == c then d else s[i]
    decreases |s|
  {
    assert HasPrefix(s, [c]) <==> s[0] == c;
    if |s| > 1 {
      ReplaceCharAt(s[1..], c, d, if i > 0 then i - 1 else 0);
    } else {
      assert s[1..] == "";
    }
  }

  lemma FlatAt(email: string, i: nat)
    requires i < |email|
    ensures var flat := ToLower(ReplaceAll(ReplaceAll(email, "@", "-"), ".", "-"));
            |flat| == |email| && flat[i] == FlatChar(email[i])
  {
    var one := ReplaceAll(email, "@", "-");
    ReplaceCharAt(email, '@', '-', i);
    ReplaceCharAt(one, '.', '-', i);
    LowerAt(ReplaceAll(one, ".", "-"), i);
  }

  /** The email itself, flattened and cut to the room there is. */
  lemma LongBase(email: string, i: nat)
    requires |SanitizeUsername(email)| > MAX_USERNAME && i < |AccountBase(email)|
    ensures |AccountBase(email)| == (if |email| < 19 then |email| else 19)
    ensures AccountBase(email)[i] == FlatChar(email[i])
  {
    var flat := ToLower(ReplaceAll(ReplaceAll(email, "@", "-"), ".", "-"));
    if email != "" {
      FlatAt(email, 0);
    }
    FlatAt(email, i);
  }

  /** No account ID is longer than the thirty characters allowed. */
  lemma AccountIdFits(email: string, stamp: nat)
    requires stamp < 10_000_000_000
    ensures |AccountId(email, stamp)| <= 30
  {
    TenPowers();
    DecimalAtLeast(stamp, 10);
  }

  /** `account` is `base-digits@domain`, with ten digits. */
  predicate StampedAccount(account: string, base: string, digits: string, domain: string) {
    && account == base + "-" + digits + "@" + domain
    && |digits| == 10 && AllDigits(digits) && '@' !in base && '@' !in domain
  }

  lemma StampedStandsFor(account: string, base: string, digits: string, domain: string)
    requires StampedAccount(account, base, digits, domain)
    ensures UserEmailOf(account) == UnsanitizeUsername(base)
  {
    assert '@' !in base + "-" + digits;
    SplitAtSign(base + "-" + digits, domain);
    UserOfStamped(base, digits);
  }

  lemma IdParts(id: string) returns (base: string, digits: string)
    requires UserOfAccountId(id) != ""
    ensures id == base + "-" + digits && |digits| == 10 && AllDigits(digits)
  {
    var h := LastIndexOf(id, '-');
    base, digits := id[..h], id[h + 1..];
  }

  lemma DecodedIsStamped(account: string) returns (base: string, digits: string, domain: string)
    requires UserEmailOf(account) != ""
    ensures StampedAccount(account, base, digits, domain)
  {
    var parts := Split(account, '@');
    JoinSplit(account, '@');
    JoinTwo(parts, '@');
    base, digits := IdParts(parts[0]);
    domain := parts[1];
    assert parts[0] in parts && parts[1] in parts;
  }

  lemma JoinTwo(parts: seq<string>, sep: char)
    requires |parts| == 2
    ensures Join(parts, sep) == parts[0] + [sep] + parts[1]
  {
    assert Join(parts[1..], sep) == parts[1];
  }

  /** An email without exactly one `@` is a name as a whole. */
  lemma SanitizedWhole(email: string)
    requires forall name, domain :: '@' !in name && '@' !in domain ==> email != name + "@" + domain
    ensures SanitizeUsername(email) == Encode(ToLower(email))
  {
    var parts := Split(email, '@');
    if |parts| == 2 {
      JoinSplit(email, '@');
      JoinTwo(parts, '@');
    }
  }

  /** An account email stands for a user exactly when it has that shape, and then for the decoded base. */
  lemma UserEmailOfIff(account: string, user: string)
    requires user != ""
    ensures UserEmailOf(account) == user <==>
            exists base, digits, domain ::
              StampedAccount(account, base, digits, domain) && user == UnsanitizeUsername(base)
  {
    if UserEmailOf(account) == user {
      var base, digits, domain := DecodedIsStamped(account);
      StampedStandsFor(account, base, digits, domain);
    }
    if base, digits, domain :| StampedAccount(account, base, digits, domain) && user == UnsanitizeUsername(base) {
      StampedStandsFor(account, base, digits, domain);
    }
  }
}
