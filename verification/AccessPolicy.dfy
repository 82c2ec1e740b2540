/**
 * The state of the GCP access manager and its four operations, as functions of
 * the state, the clock readings and which remote calls fail. A remote call that
 * fails changes nothing.
 */
module AccessPolicy {
  import opened GoStrings
  import opened Wrappers
  import Names = AccountNames

  /** Nanoseconds since the epoch. */
  type Time = int

  const SECOND: Time := 1_000_000_000
  const ACCESS_DURATION: Time := 7 * 24 * 3600 * SECOND
  const IAM_ROLE := "projects/openshift-crt-ephemeral-access/roles/chat_bot_user"
  const TEMP_TITLE := "Temp Access"
  const MEMBER_PREFIX := "serviceAccount:"

  /** A condition expression, by the timestamp that can be read back from it. */
  datatype Expression = ExpiresAt(at: Time) | Unparsable(text: string)

  datatype Condition = Condition(title: string, description: string, expression: Expression)

  datatype Binding = Binding(role: string, members: seq<string>, condition: Option<Condition>)

  datatype Grant = Grant(
    email: string, grantedAt: Time, expiresAt: Time,
    requestedBy: string, justification: string, account: string)

  /** The IAM policy, the live service accounts with their display names, and the bot's cache. */
  datatype World = World(policy: seq<Binding>, accounts: map<string, string>, cache: map<string, Grant>)

  datatype Config = Config(enabled: bool, dryRun: bool, project: string)

  datatype Outcome = Done | Granted(expiresAt: Time) | Found(grant: Option<Grant>) | Failed

  predicate IsTemp(b: Binding) {
    b.role == IAM_ROLE && b.condition.Some? && b.condition.value.title == TEMP_TITLE
  }

  /** The expiry read from the condition, if there is one and it can be read. */
  function Expiration(b: Binding): Option<Time> {
    if b.condition.Some? && b.condition.value.expression.ExpiresAt?
    then Some(b.condition.value.expression.at) else None
  }

  /** RFC 3339 text keeps whole seconds. */
  function ToSecond(t: Time): (r: Time)
    ensures r % 1_000_000_000 == 0 && r <= t < r + 1_000_000_000
  {
    t - t % SECOND
  }

  function Member(account: string): string {
    MEMBER_PREFIX + account
  }

  /** The account a member string names, or "". */
  function AccountOf(member: string): string {
    if HasPrefix(member, MEMBER_PREFIX) then member[|MEMBER_PREFIX|..] else ""
  }

  function TempBinding(account: string, expiresAt: Time, justification: string): Binding {
    Binding(IAM_ROLE, [Member(account)],
            Some(Condition(TEMP_TITLE, justification, ExpiresAt(ToSecond(expiresAt)))))
  }

  // ----- grant -----

  datatype GrantFaults = GrantFaults(create: bool, key: bool, getPolicy: bool, setPolicy: bool, rollback: bool)

  function DeleteAccount(accounts: map<string, string>, account: string, fails: bool): map<string, string> {
    if fails then accounts else accounts - {account}
  }

  /** `now` is read first; `stamp` is the later reading that goes into the account name. */
  function GrantAccess(cfg: Config, w: World, email: string, requestedBy: string, justification: string,
                       now: Time, stamp: nat, faults: GrantFaults): (World, Outcome)
  {
    if !cfg.enabled then (w, Failed)
    else if email in w.cache && w.cache[email].expiresAt > now then
      if !cfg.dryRun && faults.key then (w, Failed) else (w, Granted(w.cache[email].expiresAt))
    else
      var expiresAt := now + ACCESS_DURATION;
      if cfg.dryRun then
        var account := Names.AccountEmail("dry-run-" + ReplaceAll(email, "@", "-at-"), cfg.project);
        var grant := Grant(email, now, expiresAt, requestedBy, justification, account);
        (w.(cache := w.cache[email := grant]), Granted(expiresAt))
      else
        var account := Names.AccountEmail(Names.AccountId(email, stamp), cfg.project);
        if faults.create || account in w.accounts then (w, Failed)
        else
          var created := w.accounts[account := email];
          if faults.key || faults.getPolicy || faults.setPolicy then
            (w.(accounts := DeleteAccount(created, account, faults.rollback)), Failed)
          else
            var grant := Grant(email, now, expiresAt, requestedBy, justification, account);
            (World(w.policy + [TempBinding(account, expiresAt, justification)], created, w.cache[email := grant]),
             Granted(expiresAt))
  }

  // ----- lookup -----

  datatype LookupFaults = LookupFaults(getPolicy: bool, getAccount: set<string>)

  function GrantFromIAM(email: string, expiresAt: Time, account: string): Grant {
    Grant(email, expiresAt - ACCESS_DURATION, expiresAt, "", "", account)
  }

  /** Does the scan take this member as the account of `email`? */
  predicate Recognized(accounts: map<string, string>, email: string, account: string, faults: LookupFaults) {
    || Names.UserEmailOf(account) == email
    || (Names.NeedsDisplayNameFallback(email) && account !in faults.getAccount
        && account in accounts && accounts[account] == email)
  }

  /** Could a scan take the account for this user's? */
  predicate Recognizable(email: string, account: string) {
    Names.UserEmailOf(account) == email || Names.NeedsDisplayNameFallback(email)
  }

  function FindInMembers(accounts: map<string, string>, members: seq<string>, expiration: Option<Time>,
                         email: string, faults: LookupFaults): Option<Grant>
  {
    if members == [] then None
    else
      var account := AccountOf(members[0]);
      if account != "" && Recognized(accounts, email, account, faults) && expiration.Some?
      then Some(GrantFromIAM(email, expiration.value, account))
      else FindInMembers(accounts, members[1..], expiration, email, faults)
  }

  function FindInPolicy(accounts: map<string, string>, policy: seq<Binding>, email: string,
                        faults: LookupFaults): Option<Grant>
  {
    if policy == [] then None
    else
      var found := if IsTemp(policy[0])
                   then FindInMembers(accounts, policy[0].members, Expiration(policy[0]), email, faults)
                   else None;
      if found.Some? then found else FindInPolicy(accounts, policy[1..], email, faults)
  }

  lemma {:induction false} FoundIsNamed(accounts: map<string, string>, members: seq<string>, expiration: Option<Time>,
                                        email: string, faults: LookupFaults)
    ensures var g := FindInMembers(accounts, members, expiration, email, faults);
            g.Some? ==> g.value.account != ""
  {
    if members != [] {
      FoundIsNamed(accounts, members[1..], expiration, email, faults);
    }
  }

  lemma {:induction false} FoundInPolicyIsNamed(accounts: map<string, string>, policy: seq<Binding>, email: string,
                                                faults: LookupFaults)
    ensures var g := FindInPolicy(accounts, policy, email, faults); g.Some? ==> g.value.account != ""
  {
    if policy != [] {
      FoundInPolicyIsNamed(accounts, policy[1..], email, faults);
      if IsTemp(policy[0]) {
        FoundIsNamed(accounts, policy[0].members, Expiration(policy[0]), email, faults);
      }
    }
  }

  function GetUserGrant(cfg: Config, w: World, email: string, faults: LookupFaults): (World, Outcome) {
    if !cfg.enabled then (w, Failed)
    else if email in w.cache then (w, Found(Some(w.cache[email])))
    else if faults.getPolicy then (w, Failed)
    else
      var found := FindInPolicy(w.accounts, w.policy, email, faults);
      (if found.Some? then w.(cache := w.cache[email := found.value]) else w, Found(found))
  }

  // ----- revoke -----

  datatype RevokeFaults = RevokeFaults(lookup: LookupFaults, getPolicy: bool, setPolicy: bool, delete: bool)

  function Without(members: seq<string>, member: string): seq<string> {
    if members == [] then []
    else (if members[0] == member then [] else [members[0]]) + Without(members[1..], member)
  }

  predicate Holds(b: Binding, member: string) {
    IsTemp(b) && member in b.members
  }

  /** A temporary binding loses the member, and goes when nobody is left. */
  function RemoveFrom(b: Binding, member: string): seq<Binding> {
    if !Holds(b, member) then [b]
    else if Without(b.members, member) == [] then []
    else [b.(members := Without(b.members, member))]
  }

  function RemoveMember(policy: seq<Binding>, member: string): seq<Binding> {
    if policy == [] then []
    else RemoveFrom(policy[0], member) + RemoveMember(policy[1..], member)
  }

  predicate Touches(policy: seq<Binding>, member: string) {
    exists i :: 0 <= i < |policy| && Holds(policy[i], member)
  }

  function RevokeAccess(cfg: Config, w: World, email: string, faults: RevokeFaults): (World, Outcome) {
    if !cfg.enabled then (w, Failed)
    else
      var found := if email in w.cache && w.cache[email].account != "" then Some(w.cache[email])
                   else if faults.lookup.getPolicy then None
                   else FindInPolicy(w.accounts, w.policy, email, faults.lookup);
      if found.None? then (w.(cache := w.cache - {email}), Done)
      else
        RevokeAccount(cfg, w.(cache := w.cache[email := found.value]), email, found.value.account, faults)
  }

  function RevokeAccount(cfg: Config, w: World, email: string, account: string, faults: RevokeFaults)
    : (World, Outcome)
  {
    if cfg.dryRun then (w.(cache := w.cache - {email}), Done)
    else if faults.getPolicy then (w, Failed)
    else if Touches(w.policy, Member(account)) && faults.setPolicy then (w, Failed)
    else
      (World(RemoveMember(w.policy, Member(account)),
             DeleteAccount(w.accounts, account, faults.delete),
             w.cache - {email}), Done)
  }

  // ----- cleanup -----

  datatype CleanupFaults = CleanupFaults(getPolicy: bool, setPolicy: bool, delete: set<string>)

  predicate Expired(b: Binding, now: Time) {
    IsTemp(b) && Expiration(b).Some? && Expiration(b).value < now
  }

  function Unexpired(policy: seq<Binding>, now: Time): seq<Binding> {
    if policy == [] then []
    else (if Expired(policy[0], now) then [] else [policy[0]]) + Unexpired(policy[1..], now)
  }

  function NamedAccounts(members: seq<string>): seq<string> {
    if members == [] then []
    else (if AccountOf(members[0]) != "" then [AccountOf(members[0])] else []) + NamedAccounts(members[1..])
  }

  function ExpiredAccounts(policy: seq<Binding>, now: Time): seq<string> {
    if policy == [] then []
    else (if Expired(policy[0], now) then NamedAccounts(policy[0].members) else []) + ExpiredAccounts(policy[1..], now)
  }

  function Forget(cache: map<string, Grant>, accounts: set<string>): map<string, Grant> {
    map u | u in cache && cache[u].account !in accounts :: cache[u]
  }

  function CleanupExpired(cfg: Config, w: World, now: Time, faults: CleanupFaults): (World, Outcome) {
    if !cfg.enabled then (w, Done)
    else if faults.getPolicy then (w, Failed)
    else if !exists i :: 0 <= i < |w.policy| && Expired(w.policy[i], now) then (w, Done)
    else
      var gone := set a | a in ExpiredAccounts(w.policy, now);
      var cache := Forget(w.cache, gone);
      // the cache is trimmed before the policy is written
      if faults.setPolicy then (w.(cache := cache), Failed)
      else (World(Unexpired(w.policy, now), w.accounts - (gone - faults.delete), cache), Done)
  }
}
