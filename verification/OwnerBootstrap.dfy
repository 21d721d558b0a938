/** Linking the owner row to the operator's person on every daemon start
    (robothor/crm/dal.py, robothor/owner_config.py). */
module OwnerBootstrap {
  import opened Sequences
  import opened Text
  import opened People
  import opened PeopleAnswers

  /** A row of `tenant_users`; rows are kept in id order, ids being serial. */
  datatype User = User(tenant: string, role: string, person: Option<PersonId>)

  datatype Install = Install(people: map<PersonId, Person>, users: seq<User>)

  datatype Config = Config(tenant: string, first: string, last: string, email: string, phone: string)

  /** What the owner file yields: stripped names, and an e-mail stripped and lower-cased. */
  function LoadConfig(tenant: string, first: string, last: string, email: string, phone: string): Option<Config> {
    var name, address := Strip(first), Lower(Strip(email));
    if name == "" || address == "" then None
    else Some(Config(Strip(tenant), name, Strip(last), address, Strip(phone)))
  }

  /** The e-mail form every loaded configuration has. */
  predicate Loaded(config: Config) {
    config.email != "" && Strip(config.email) == config.email && Lower(config.email) == config.email
  }

  lemma LoadedConfigIsNormal(tenant: string, first: string, last: string, email: string, phone: string)
    requires LoadConfig(tenant, first, last, email, phone).Some?
    ensures Loaded(LoadConfig(tenant, first, last, email, phone).value)
  {
  }

  // ---- The queries ----

  predicate IsOwner(u: User, tenant: string) {
    u.tenant == tenant && u.role == "owner"
  }

  /** `ORDER BY id LIMIT 1`: the first owner row at or after `from`. */
  function FirstOwner(users: seq<User>, tenant: string, from: nat): (r: Option<nat>)
    requires from <= |users|
    ensures r.Some? ==> from <= r.value < |users| && IsOwner(users[r.value], tenant)
    ensures forall k :: from <= k < (if r.Some? then r.value else |users|) ==> !IsOwner(users[k], tenant)
    decreases |users| - from
  {
    if from == |users| then None
    else if IsOwner(users[from], tenant) then Some(from)
    else FirstOwner(users, tenant, from + 1)
  }

  /** A person the e-mail look-up finds: live, of the tenant, `LOWER(email)` equal to the address. */
  predicate Matches(p: Person, config: Config) {
    !p.deleted && p.tenant == config.tenant && Lower(p.Value(Email)) == config.email
  }

  predicate OperatorExists(install: Install, config: Config) {
    exists id :: id in install.people && Matches(install.people[id], config)
  }

  /** The row the look-up picks, if there is one. */
  predicate GoodPick(install: Install, config: Config, pick: Option<PersonId>) {
    match pick
    case Some(id) => id in install.people && Matches(install.people[id], config)
    case None => !OperatorExists(install, config)
  }

  /** The partial unique index: at most one linked owner row per tenant. */
  predicate AtMostOneLinked(users: seq<User>, tenant: string) {
    forall i, j :: 0 <= i < j < |users| && IsOwner(users[i], tenant) && IsOwner(users[j], tenant) ==>
      users[i].person.None? || users[j].person.None?
  }

  predicate AnyLinked(users: seq<User>, tenant: string) {
    exists k :: 0 <= k < |users| && IsOwner(users[k], tenant) && users[k].person.Some?
  }

  // ---- One bootstrap run ----

  /** Where the run stops: it completes, or dies after the person is committed. */
  datatype Attempt = Attempt(newId: PersonId, pick: Option<PersonId>, diesBeforeLink: bool)

  function Link(install: Install, config: Config, owner: nat, person: PersonId, dies: bool): Install
    requires owner < |install.users|
  {
    if dies || AnyLinked(install.users, config.tenant) then install
    else install.(users := install.users[owner := install.users[owner].(person := Some(person))])
  }

  predicate NeedsLink(install: Install, config: Config) {
    var owner := FirstOwner(install.users, config.tenant, 0);
    owner.Some? && install.users[owner.value].person.None?
  }

  function BootSpec(install: Install, blocklist: set<string>, config: Config, a: Attempt): Install {
    if !NeedsLink(install, config) then install
    else
      var owner := FirstOwner(install.users, config.tenant, 0).value;
      match a.pick
      case Some(id) => Link(install, config, owner, id, a.diesBeforeLink)
      case None =>
        var (people, created) := CreateSpec(install.people, blocklist, a.newId, config.first, config.last, config.email,
                                            config.phone, config.tenant);
        if !created then install
        else Link(install.(people := people), config, owner, a.newId, a.diesBeforeLink)
  }

  class InstallTables {
    const blocklist: set<string>
    var people: map<PersonId, Person>
    var users: seq<User>

    function Snapshot(): Install
      reads this
    {
      Install(people, users)
    }

    constructor (blocklist: set<string>, users: seq<User>)
      ensures Snapshot() == Install(map[], users) && this.blocklist == blocklist
    {
      this.blocklist := blocklist;
      this.people, this.users := map[], users;
    }

    /** The person is committed by `create_person` before the owner row is updated; an UPDATE that
        breaks the unique index raises and changes nothing. */
    method BootstrapOwnerPersonLinks(config: Config, a: Attempt)
      modifies this
      ensures Snapshot() == BootSpec(old(Snapshot()), blocklist, config, a)
    {
      var owner := FirstOwner(users, config.tenant, 0);
      if owner.None? {
        return;
      }
      if users[owner.value].person.Some? {
        return;
      }
      var person;
      if a.pick.Some? {
        person := a.pick.value;
      } else {
        var (after, created) := CreateSpec(people, blocklist, a.newId, config.first, config.last, config.email,
                                           config.phone, config.tenant);
        people := after;
        if !created {
          return;
        }
        person := a.newId;
      }
      if a.diesBeforeLink || AnyLinked(users, config.tenant) {
        return;
      }
      users := users[owner.value := users[owner.value].(person := Some(person))];
    }
  }

  // ---- The next run finds what this one created ----

  lemma NormalizeLoaded(config: Config)
    requires Loaded(config) && '@' in config.email
    ensures NormalizeEmail(config.email) == config.email
  {
  }

  lemma NewPersonEmail(first: string, last: string, email: string, phone: string, tenant: string)
    ensures NewPerson(first, last, email, phone, tenant).Value(Email) == NormalizeEmail(email)
  {
  }

  /** With an address in it, the created row is found by the next look-up exactly when the configured
      e-mail is already in the form `create_person` stores. */
  lemma CreatedPersonIsFoundIff(config: Config)
    requires '@' in NormalizeEmail(config.email)
    ensures Matches(NewPerson(config.first, config.last, config.email, config.phone, config.tenant), config)
       <==> NormalizeEmail(config.email) == config.email
  {
    NewPersonEmail(config.first, config.last, config.email, config.phone, config.tenant);
    var stored := NormalizeEmail(config.email);
    NormalizedIsLower(config.email);
    assert Lower(stored) == stored;
  }

  lemma {:induction false} StripLeftOfLower(t: string)
    requires Lower(t) == t
    ensures Lower(StripLeft(t)) == StripLeft(t)
  {
    if t != "" && IsSpace(t[0]) {
      assert Lower(t[1..]) == t[1..] by {
        assert forall k :: 0 <= k < |t| ==> t[k] == LowerChar(t[k]);
      }
      StripLeftOfLower(t[1..]);
    }
  }

  lemma {:induction false} StripRightOfLower(t: string)
    requires Lower(t) == t
    ensures Lower(StripRight(t)) == StripRight(t)
  {
    if t != "" && IsSpace(t[|t| - 1]) {
      assert Lower(t[..|t| - 1]) == t[..|t| - 1] by {
        assert forall k :: 0 <= k < |t| ==> t[k] == LowerChar(t[k]);
      }
      StripRightOfLower(t[..|t| - 1]);
    }
  }

  lemma NormalizedIsLower(email: string)
    ensures Lower(NormalizeEmail(email)) == NormalizeEmail(email)
  {
    LowerTwice(email);
    StripRightOfLower(Lower(email));
    StripLeftOfLower(StripRight(Lower(email)));
  }

  // ---- Any number of runs ----

  /** A bootstrap attempt, or any change of the outside world that keeps the operator findable, adds
      no linked owner row and rewrites no existing row. */
  datatype Step = Boot(attempt: Attempt) | World(after: Install)

  predicate Polite(before: Install, after: Install, config: Config) {
    && (OperatorExists(before, config) ==> OperatorExists(after, config))
    && before.users <= after.users
    && (forall k :: |before.users| <= k < |after.users| ==> after.users[k].person.None?)
  }

  predicate GoodStep(install: Install, config: Config, step: Step) {
    match step
    case Boot(a) => GoodPick(install, config, a.pick)
    case World(after) => Polite(install, after, config)
  }

  function Next(install: Install, blocklist: set<string>, config: Config, step: Step): Install {
    match step
    case Boot(a) => BootSpec(install, blocklist, config, a)
    case World(after) => after
  }

  /** 1 when this very step creates a person. */
  function CreatedBy(install: Install, blocklist: set<string>, config: Config, step: Step): nat {
    if step.Boot? && NeedsLink(install, config) && step.attempt.pick.None?
       && CreateSpec(install.people, blocklist, step.attempt.newId, config.first, config.last, config.email, config.phone,
                     config.tenant).1
    then 1 else 0
  }

  predicate GoodRun(install: Install, blocklist: set<string>, config: Config, steps: seq<Step>)
    decreases |steps|
  {
    steps == [] ||
    (GoodStep(install, config, steps[0]) && GoodRun(Next(install, blocklist, config, steps[0]), blocklist, config, steps[1..]))
  }

  function Run(install: Install, blocklist: set<string>, config: Config, steps: seq<Step>): Install
    decreases |steps|
  {
    if steps == [] then install else Run(Next(install, blocklist, config, steps[0]), blocklist, config, steps[1..])
  }

  function CreatedIn(install: Install, blocklist: set<string>, config: Config, steps: seq<Step>): nat
    decreases |steps|
  {
    if steps == [] then 0
    else CreatedBy(install, blocklist, config, steps[0])
         + CreatedIn(Next(install, blocklist, config, steps[0]), blocklist, config, steps[1..])
  }

  lemma StepKeepsOperator(install: Install, blocklist: set<string>, config: Config, step: Step)
    requires Loaded(config) && GoodStep(install, config, step)
    ensures OperatorExists(install, config) ==> OperatorExists(Next(install, blocklist, config, step), config)
    ensures OperatorExists(install, config) ==> CreatedBy(install, blocklist, config, step) == 0
    ensures CreatedBy(install, blocklist, config, step) == 1 ==> OperatorExists(Next(install, blocklist, config, step), config)
  {
    if CreatedBy(install, blocklist, config, step) == 1 {
      var a := step.attempt;
      NormalizeLoaded(config);
      CreatedPersonIsFoundIff(config);
      var next := Next(install, blocklist, config, step);
      assert a.newId in next.people && Matches(next.people[a.newId], config);
    } else if step.Boot? {
      assert Next(install, blocklist, config, step).people == install.people;
    }
  }

  /** However often the bootstrap runs and wherever it dies, it creates at most one person, and none
      once the operator's row exists. */
  lemma {:induction false} AtMostOnePersonCreated(install: Install, blocklist: set<string>, config: Config, steps: seq<Step>)
    requires Loaded(config) && GoodRun(install, blocklist, config, steps)
    ensures CreatedIn(install, blocklist, config, steps) <= if OperatorExists(install, config) then 0 else 1
    decreases |steps|
  {
    if steps != [] {
      StepKeepsOperator(install, blocklist, config, steps[0]);
      AtMostOnePersonCreated(Next(install, blocklist, config, steps[0]), blocklist, config, steps[1..]);
    }
  }

  /** Earlier rows are all there; linked ones are unchanged; at most one owner row is linked. */
  predicate LinksKept(before: seq<User>, after: seq<User>, tenant: string) {
    && AtMostOneLinked(after, tenant)
    && |before| <= |after|
    && (forall k :: 0 <= k < |before| && before[k].person.Some? ==> after[k] == before[k])
  }

  lemma LinkKeepsLinks(install: Install, config: Config, owner: nat, person: PersonId, dies: bool)
    requires owner < |install.users| && install.users[owner].person.None? && AtMostOneLinked(install.users, config.tenant)
    ensures LinksKept(install.users, Link(install, config, owner, person, dies).users, config.tenant)
  {
  }

  lemma StepKeepsLinks(install: Install, blocklist: set<string>, config: Config, step: Step)
    requires GoodStep(install, config, step) && AtMostOneLinked(install.users, config.tenant)
    ensures LinksKept(install.users, Next(install, blocklist, config, step).users, config.tenant)
  {
    if step.Boot? && NeedsLink(install, config) {
      var a := step.attempt;
      var owner := FirstOwner(install.users, config.tenant, 0).value;
      if a.pick.Some? {
        LinkKeepsLinks(install, config, owner, a.pick.value, a.diesBeforeLink);
      } else {
        var people := CreateSpec(install.people, blocklist, a.newId, config.first, config.last, config.email,
                                 config.phone, config.tenant).0;
        LinkKeepsLinks(install.(people := people), config, owner, a.newId, a.diesBeforeLink);
      }
    }
  }

  /** At most one owner row is ever linked, and a link once made never changes. */
  lemma {:induction false} LinkNeverChanges(install: Install, blocklist: set<string>, config: Config, steps: seq<Step>, k: nat)
    requires GoodRun(install, blocklist, config, steps) && AtMostOneLinked(install.users, config.tenant)
    ensures var end := Run(install, blocklist, config, steps);
            && AtMostOneLinked(end.users, config.tenant)
            && (k < |install.users| && install.users[k].person.Some? ==> k < |end.users| && end.users[k] == install.users[k])
    decreases |steps|
  {
    if steps != [] {
      StepKeepsLinks(install, blocklist, config, steps[0]);
      LinkNeverChanges(Next(install, blocklist, config, steps[0]), blocklist, config, steps[1..], k);
    }
  }

  /** A run that dies between the two commits is repaired by the next complete one: the first owner
      row ends up linked to a row carrying the operator's e-mail. */
  lemma RetryLinksTheOperator(install: Install, blocklist: set<string>, config: Config, a: Attempt, b: Attempt)
    requires Loaded(config) && NeedsLink(install, config) && !AnyLinked(install.users, config.tenant)
    requires GoodPick(install, config, a.pick) && a.diesBeforeLink
    requires CreatedBy(install, blocklist, config, Boot(a)) == 1 || a.pick.Some?
    requires GoodPick(BootSpec(install, blocklist, config, a), config, b.pick) && !b.diesBeforeLink
    ensures var end := BootSpec(BootSpec(install, blocklist, config, a), blocklist, config, b);
            var owner := FirstOwner(install.users, config.tenant, 0).value;
            && end.users[owner].person.Some?
            && end.users[owner].person.value in end.people
            && Matches(end.people[end.users[owner].person.value], config)
            && end.people == BootSpec(install, blocklist, config, a).people
  {
    StepKeepsOperator(install, blocklist, config, Boot(a));
  }

  // ---- The whole answer of one run ----

  /** The first owner row of the tenant, if it has no person yet. */
  predicate UnlinkedOwner(users: seq<User>, tenant: string, k: nat) {
    && k < |users| && users[k].tenant == tenant && users[k].role == "owner" && users[k].person == None
    && forall j :: 0 <= j < k ==> !(users[j].tenant == tenant && users[j].role == "owner")
  }

  predicate SomeOwnerLinked(users: seq<User>, tenant: string) {
    exists k :: 0 <= k < |users| && users[k].tenant == tenant && users[k].role == "owner" && users[k].person != None
  }

  /** The row is linked, unless the run dies first or another owner row of the tenant is linked. */
  predicate RowLinked(users: seq<User>, next: seq<User>, tenant: string, k: nat, person: PersonId, dies: bool)
    requires k < |users|
  {
    && |next| == |users| && (forall j :: 0 <= j < |users| && j != k ==> next[j] == users[j])
    && next[k] == if dies || SomeOwnerLinked(users, tenant) then users[k] else User(users[k].tenant, users[k].role, Some(person))
  }

  lemma OwnerIs(install: Install, config: Config)
    ensures NeedsLink(install, config) <==> exists k: nat :: UnlinkedOwner(install.users, config.tenant, k)
    ensures NeedsLink(install, config) ==> UnlinkedOwner(install.users, config.tenant, FirstOwner(install.users, config.tenant, 0).value)
  {
    var users, owner := install.users, FirstOwner(install.users, config.tenant, 0);
    if NeedsLink(install, config) {
      forall j | 0 <= j < owner.value ensures !(users[j].tenant == config.tenant && users[j].role == "owner") {
        assert !IsOwner(users[j], config.tenant);
      }
      assert UnlinkedOwner(users, config.tenant, owner.value);
    }
    forall k: nat | UnlinkedOwner(users, config.tenant, k) ensures owner == Some(k) {
      assert IsOwner(users[k], config.tenant);
    }
  }

  lemma OneOwner(users: seq<User>, tenant: string, j: nat, k: nat)
    requires UnlinkedOwner(users, tenant, j) && UnlinkedOwner(users, tenant, k)
    ensures j == k
  {
  }

  lemma LinkAnswer(install: Install, config: Config, k: nat, person: PersonId, dies: bool)
    requires k < |install.users|
    ensures var next := Link(install, config, k, person, dies);
            next.people == install.people && RowLinked(install.users, next.users, config.tenant, k, person, dies)
  {
    assert AnyLinked(install.users, config.tenant) <==> SomeOwnerLinked(install.users, config.tenant);
  }

  /** A run does nothing unless the tenant's first owner row is unlinked. Then it links the person the look-up found,
      or one it creates from the configured names, e-mail and phone; a refused creation ends it. */
  lemma BootAnswer(install: Install, blocklist: set<string>, config: Config, a: Attempt)
    ensures var next := BootSpec(install, blocklist, config, a);
            var accepted := Accepts(blocklist, config.first, config.last, config.email) && a.newId !in install.people;
            && ((forall k: nat :: !UnlinkedOwner(install.users, config.tenant, k)) ==> next == install)
            && (forall k: nat :: UnlinkedOwner(install.users, config.tenant, k) ==>
                  match a.pick
                  case Some(id) =>
                    next.people == install.people && RowLinked(install.users, next.users, config.tenant, k, id, a.diesBeforeLink)
                  case None =>
                    if !accepted then next == install
                    else
                      && next.people.Keys == install.people.Keys + {a.newId}
                      && (forall id :: id in install.people ==> next.people[id] == install.people[id])
                      && IsNewPerson(next.people[a.newId], config.first, config.last, config.email, config.phone, config.tenant)
                      && RowLinked(install.users, next.users, config.tenant, k, a.newId, a.diesBeforeLink))
  {
    OwnerIs(install, config);
    if NeedsLink(install, config) {
      var owner := FirstOwner(install.users, config.tenant, 0).value;
      forall k: nat | UnlinkedOwner(install.users, config.tenant, k) ensures k == owner {
        OneOwner(install.users, config.tenant, k, owner);
      }
      match a.pick {
        case Some(id) => LinkAnswer(install, config, owner, id, a.diesBeforeLink);
        case None =>
          var people := CreateSpec(install.people, blocklist, a.newId, config.first, config.last, config.email, config.phone,
                                   config.tenant).0;
          CreateAnswer(install.people, blocklist, a.newId, config.first, config.last, config.email, config.phone, config.tenant);
          LinkAnswer(install.(people := people), config, owner, a.newId, a.diesBeforeLink);
      }
    }
  }

  /** What the owner file gives: nothing without a name or an address, else its fields without blanks at the ends, the
      address in lower case. */
  lemma LoadAnswer(tenant: string, first: string, last: string, email: string, phone: string)
    ensures var config := LoadConfig(tenant, first, last, email, phone);
            && (config.None? <==> Strip(first) == "" || Lower(Strip(email)) == "")
            && (config.Some? ==> config.value == Config(Strip(tenant), Strip(first), Strip(last), Lower(Strip(email)), Strip(phone)))
  {
  }
}
