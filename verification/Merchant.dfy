/**
 Merchant claims (server/merchant.js): calls that read, wait for a proof and commit in separate steps, in any
 interleaving.
 */
module Merchant {
  import opened Basics

  type Id = string
  type Key = string

  datatype Status = Pending | Verified | Failed | Withdrawn

  datatype Claim = Claim(owner: string, domain: string, status: Status, source: Option<Key>, terms: Option<string>,
    checks: nat)

  datatype Source = Source(owner: string, enabled: bool, terms: string)

  /**
   A call between its steps, with the claim as it read it. One that came to nothing, for want of a proof or of a source,
   is still to be counted. `since` is how many sources had been created when a withdrawal read its claim.
   */
  datatype Task =
    | Adding(owner: string, domain: string)
    | Checking(id: Id, read: Claim)
    | Uncounted(id: Id)
    | Proved(id: Id, read: Claim, terms: string)
    | Withdrawing(id: Id, read: Claim, since: nat)

  type Call = nat

  /** What a committed withdrawal saw: sources created before its read and before its commit. */
  datatype Withdrawal = Withdrawal(id: Id, since: nat, until: nat)

  /** The tables, the calls under way, and the history: claims proved, sources created, withdrawals committed. */
  datatype State = State(
    claims: map<Id, Claim>, sources: map<Key, Source>, calls: map<Call, Task>,
    proved: set<Id>, created: seq<(Id, Key)>, withdrawn: seq<Withdrawal>)

  /** The step a call takes; what it meets outside (a proof, an error in its transaction) is part of the step. */
  datatype Step =
    | ReadToAdd(call: Call, owner: string, domain: string)
    | Insert(call: Call, id: Id)
    | ReadToVerify(call: Call, owner: string, id: Id)
    | ReadToRecheck(call: Call, id: Id)
    | Lookup(call: Call, found: bool, terms: string)
    | RecordCheck(call: Call)
    | CommitVerify(call: Call, ok: bool)
    | Expire(id: Id)
    | ReadToWithdraw(call: Call, owner: string, id: Id)
    | CommitWithdraw(call: Call)

  /** The key a claim's source gets, from its id and domain. */
  type Naming = (Id, string) -> Key

  predicate Live(c: Claim) {
    c.status == Pending || c.status == Verified
  }

  predicate Taken(claims: map<Id, Claim>, domain: string) {
    exists id :: id in claims && claims[id].domain == domain && Live(claims[id])
  }

  function Ended(s: State, call: Call): State {
    s.(calls := s.calls - {call})
  }

  function Began(s: State, call: Call, task: Task): State {
    s.(calls := s.calls[call := task])
  }

  function Checked(s: State, id: Id): State {
    if id in s.claims then s.(claims := s.claims[id := s.claims[id].(checks := s.claims[id].checks + 1)]) else s
  }

  /**
   The transaction of a proved check: only a claim that is still pending gets its source, and only under a new key. One
   that fails, be it not `ok` for a reason of its own, writes nothing; then the check is still to be counted.
   */
  function Verify(naming: Naming, s: State, call: Call, ok: bool): State
    requires call in s.calls && s.calls[call].Proved?
  {
    var p := s.calls[call];
    if !ok then Began(s, call, Uncounted(p.id))
    else if p.id !in s.claims || s.claims[p.id].status != Pending then Ended(s, call)
    else if naming(p.id, p.read.domain) in s.sources then Began(s, call, Uncounted(p.id))
    else Confirmed(Ended(s, call), p.id, naming(p.id, p.read.domain), p.terms)
  }

  function Proven(c: Claim, key: Key, terms: string): Claim {
    c.(status := Verified, source := Some(key), terms := Some(terms), checks := c.checks + 1)
  }

  /** The claim is verified, its source created under its key. */
  function Confirmed(s: State, id: Id, key: Key, terms: string): State
    requires id in s.claims
  {
    s.(sources := s.sources[key := Source(s.claims[id].owner, true, terms)],
       claims := s.claims[id := Proven(s.claims[id], key, terms)], created := s.created + [(id, key)])
  }

  function Disabled(sources: map<Key, Source>, named: Option<Key>): map<Key, Source> {
    if named.Some? && named.value in sources then sources[named.value := sources[named.value].(enabled := false)]
    else sources
  }

  /** The transaction of a withdrawal: the source named when the claim was read is disabled, and the claim withdrawn. */
  function Withdraw(s: State, w: Task): State
    requires w.Withdrawing?
  {
    var claims := if w.id in s.claims then s.claims[w.id := s.claims[w.id].(status := Withdrawn)] else s.claims;
    s.(sources := Disabled(s.sources, w.read.source), claims := claims,
       withdrawn := s.withdrawn + [Withdrawal(w.id, w.since, |s.created|)])
  }

  function Next(naming: Naming, s: State, a: Step): State {
    match a
    case ReadToAdd(call, owner, domain) =>
      if call in s.calls || Taken(s.claims, domain) then s else Began(s, call, Adding(owner, domain))
    case Insert(call, id) =>
      if call !in s.calls || !s.calls[call].Adding? || id in s.claims then s
      else if Taken(s.claims, s.calls[call].domain) then Ended(s, call)
      else Ended(s, call).(claims := s.claims[id := Claim(s.calls[call].owner, s.calls[call].domain, Pending, None,
        None, 0)])
    case ReadToVerify(call, owner, id) =>
      if call in s.calls || id !in s.claims || s.claims[id].owner != owner || s.claims[id].status != Pending then s
      else Began(s, call, Checking(id, s.claims[id]))
    case ReadToRecheck(call, id) =>
      if call in s.calls || id !in s.claims || s.claims[id].status != Pending then s
      else Began(s, call, Checking(id, s.claims[id]))
    case Lookup(call, found, terms) =>
      if call !in s.calls || !s.calls[call].Checking? then s
      else if !found then Began(s, call, Uncounted(s.calls[call].id))
      else Began(s, call, Proved(s.calls[call].id, s.calls[call].read, terms)).(proved := s.proved + {s.calls[call].id})
    case RecordCheck(call) =>
      if call !in s.calls || !s.calls[call].Uncounted? then s else Checked(Ended(s, call), s.calls[call].id)
    case CommitVerify(call, ok) =>
      if call !in s.calls || !s.calls[call].Proved? then s else Verify(naming, s, call, ok)
    case Expire(id) =>
      if id !in s.claims || s.claims[id].status != Pending then s
      else s.(claims := s.claims[id := s.claims[id].(status := Failed)])
    case ReadToWithdraw(call, owner, id) =>
      if call in s.calls || id !in s.claims || s.claims[id].owner != owner || s.claims[id].status == Withdrawn then s
      else Began(s, call, Withdrawing(id, s.claims[id], |s.created|))
    case CommitWithdraw(call) =>
      if call !in s.calls || !s.calls[call].Withdrawing? then s else Withdraw(Ended(s, call), s.calls[call])
  }

  const EMPTY := State(map[], map[], map[], {}, [], [])

  function Run(naming: Naming, steps: seq<Step>): State {
    if steps == [] then EMPTY else Next(naming, Run(naming, steps[..|steps| - 1]), steps[|steps| - 1])
  }

  // ----- what every interleaving keeps -----

  /** A domain has at most one live claim. */
  ghost predicate OneLive(claims: map<Id, Claim>) {
    forall a, b ::
      a in claims && b in claims && Live(claims[a]) && Live(claims[b]) && claims[a].domain == claims[b].domain ==>
        a == b
  }

  /** Verified claims name a source; pending and failed ones name none. */
  ghost predicate Statuses(claims: map<Id, Claim>) {
    forall id :: id in claims ==> StatusFits(claims[id])
  }

  ghost predicate StatusFits(c: Claim) {
    && (c.status == Verified ==> c.source.Some?)
    && (c.status == Pending || c.status == Failed ==> c.source.None?)
  }

  /** At most one source per claim, and no key twice. */
  ghost predicate OnceEach(created: seq<(Id, Key)>) {
    forall i, j :: 0 <= i < j < |created| ==> created[i].0 != created[j].0 && created[i].1 != created[j].1
  }

  /** Each source was created for a proved claim, which keeps naming it. */
  ghost predicate CreatedProved(claims: map<Id, Claim>, sources: map<Key, Source>, proved: set<Id>,
                                created: seq<(Id, Key)>) {
    forall i :: 0 <= i < |created| ==>
      created[i].0 in proved && created[i].1 in sources
      && created[i].0 in claims && claims[created[i].0].source == Some(created[i].1)
  }

  /** What a claim names was created for it. */
  ghost predicate NamesCreated(claims: map<Id, Claim>, created: seq<(Id, Key)>) {
    forall id :: id in claims ==> NameFits(claims[id], created, id)
  }

  ghost predicate NameFits(c: Claim, created: seq<(Id, Key)>, id: Id) {
    c.source.Some? ==> CreatedBy(created, id, |created|)
  }

  /** There is no source but those created. */
  ghost predicate AllCreated(sources: map<Key, Source>, created: seq<(Id, Key)>) {
    forall key :: key in sources ==> exists i :: 0 <= i < |created| && created[i].1 == key
  }

  /** A source was created for the claim among the first `n`. */
  ghost predicate CreatedBy(created: seq<(Id, Key)>, id: Id, n: nat) {
    exists i :: 0 <= i < |created| && i < n && created[i].0 == id
  }

  /** A verification committed between a withdrawal's read and its commit. */
  ghost predicate Raced(created: seq<(Id, Key)>, w: Withdrawal) {
    exists i :: 0 <= i < |created| && w.since <= i < w.until && created[i].0 == w.id
  }

  /** What a call under way holds fits the tables. */
  ghost predicate TaskFits(claims: map<Id, Claim>, proved: set<Id>, created: seq<(Id, Key)>, t: Task) {
    match t
    case Adding(_, _) => true
    case Checking(id, _) => id in claims
    case Uncounted(id) => id in claims
    case Proved(id, _, _) => id in claims && id in proved
    case Withdrawing(id, read, since) =>
      && id in claims && since <= |created|
      && (read.source.Some? <==> CreatedBy(created, id, since))
      && (read.source.Some? ==> claims[id].source == read.source)
  }

  ghost predicate CallsFit(calls: map<Call, Task>, claims: map<Id, Claim>, proved: set<Id>, created: seq<(Id, Key)>) {
    forall c :: c in calls ==> TaskFits(claims, proved, created, calls[c])
  }

  /** The claim of a committed withdrawal is withdrawn, and no source was created for it since. */
  ghost predicate WithdrawnFits(claims: map<Id, Claim>, created: seq<(Id, Key)>, w: Withdrawal) {
    && w.id in claims && claims[w.id].status == Withdrawn && w.since <= w.until <= |created|
    && (CreatedBy(created, w.id, |created|) ==> CreatedBy(created, w.id, w.until))
  }

  ghost predicate WithdrawnStay(claims: map<Id, Claim>, created: seq<(Id, Key)>, withdrawn: seq<Withdrawal>) {
    forall w :: w in withdrawn ==> WithdrawnFits(claims, created, w)
  }

  /** A claim's source is on as long as every withdrawal of the claim was overtaken by its verification. */
  ghost predicate EnabledFits(sources: map<Key, Source>, created: seq<(Id, Key)>, withdrawn: seq<Withdrawal>) {
    forall i :: 0 <= i < |created| ==> EnabledAt(sources, created, withdrawn, created[i].0, created[i].1)
  }

  ghost predicate EnabledAt(sources: map<Key, Source>, created: seq<(Id, Key)>, withdrawn: seq<Withdrawal>, id: Id,
                            key: Key) {
    key in sources && (sources[key].enabled <==> forall w :: w in withdrawn && w.id == id ==> Raced(created, w))
  }

  /** A claim is withdrawn only by a withdrawal. */
  ghost predicate WithdrawnByCall(claims: map<Id, Claim>, withdrawn: seq<Withdrawal>) {
    forall id :: id in claims && claims[id].status == Withdrawn ==> WithdrawalOf(withdrawn, id)
  }

  ghost predicate WithdrawalOf(withdrawn: seq<Withdrawal>, id: Id) {
    exists w :: w in withdrawn && w.id == id
  }

  ghost predicate Safe(s: State) {
    && OneLive(s.claims) && Statuses(s.claims)
    && OnceEach(s.created) && CreatedProved(s.claims, s.sources, s.proved, s.created)
    && NamesCreated(s.claims, s.created) && AllCreated(s.sources, s.created)
    && CallsFit(s.calls, s.claims, s.proved, s.created)
    && WithdrawnStay(s.claims, s.created, s.withdrawn) && EnabledFits(s.sources, s.created, s.withdrawn)
    && WithdrawnByCall(s.claims, s.withdrawn)
  }

  // ----- calls begin and end -----

  lemma BeganSafe(s: State, call: Call, task: Task)
    requires Safe(s) && TaskFits(s.claims, s.proved, s.created, task)
    ensures Safe(Began(s, call, task))
  {}

  lemma EndedSafe(s: State, call: Call)
    requires Safe(s)
    ensures Safe(Ended(s, call))
  {}

  lemma ProvedSafe(s: State, id: Id)
    requires Safe(s)
    ensures Safe(s.(proved := s.proved + {id}))
  {
    var proved := s.proved + {id};
    assert CallsFit(s.calls, s.claims, proved, s.created) by {
      forall c | c in s.calls ensures TaskFits(s.claims, proved, s.created, s.calls[c]) {
        assert TaskFits(s.claims, s.proved, s.created, s.calls[c]);
      }
    }
  }

  // ----- a claim's row changes -----

  /**
   The same claim further on: its domain and source stay, it does not come back to life, and a withdrawn one stays so.
   */
  ghost predicate Advanced(c: Claim, d: Claim) {
    && d.domain == c.domain && d.source == c.source && StatusFits(d)
    && (Live(d) ==> Live(c)) && (c.status == Withdrawn ==> d.status == Withdrawn)
  }

  lemma AdvancedTables(s: State, id: Id, d: Claim)
    requires Safe(s) && id in s.claims && Advanced(s.claims[id], d)
    ensures var claims := s.claims[id := d];
            && OneLive(claims) && Statuses(claims) && CreatedProved(claims, s.sources, s.proved, s.created)
            && NamesCreated(claims, s.created)
  {
    var claims := s.claims[id := d];
    assert OneLive(claims) by { AdvancedLive(s.claims, id, d); }
    assert Statuses(claims) by { assert Statuses(s.claims); }
    assert CreatedProved(claims, s.sources, s.proved, s.created) by { SameSourceCreated(s, id, d); }
    assert NamesCreated(claims, s.created) by { SameSourceNames(s.claims, s.created, id, d); }
  }

  lemma AdvancedLive(claims: map<Id, Claim>, id: Id, d: Claim)
    requires OneLive(claims) && id in claims && d.domain == claims[id].domain && (Live(d) ==> Live(claims[id]))
    ensures OneLive(claims[id := d])
  {}

  lemma SameSourceCreated(s: State, id: Id, d: Claim)
    requires CreatedProved(s.claims, s.sources, s.proved, s.created) && id in s.claims
             && d.source == s.claims[id].source
    ensures CreatedProved(s.claims[id := d], s.sources, s.proved, s.created)
  {}

  lemma SameSourceNames(claims: map<Id, Claim>, created: seq<(Id, Key)>, id: Id, d: Claim)
    requires NamesCreated(claims, created) && id in claims && d.source == claims[id].source
    ensures NamesCreated(claims[id := d], created)
  {
    var more := claims[id := d];
    forall i | i in more ensures NameFits(more[i], created, i) {
      assert NameFits(claims[i], created, i);
    }
  }

  lemma AdvancedCalls(s: State, id: Id, d: Claim)
    requires CallsFit(s.calls, s.claims, s.proved, s.created) && id in s.claims && d.source == s.claims[id].source
    ensures CallsFit(s.calls, s.claims[id := d], s.proved, s.created)
  {
    forall c | c in s.calls ensures TaskFits(s.claims[id := d], s.proved, s.created, s.calls[c]) {
      assert TaskFits(s.claims, s.proved, s.created, s.calls[c]);
    }
  }

  lemma AdvancedWithdrawals(s: State, id: Id, d: Claim)
    requires WithdrawnStay(s.claims, s.created, s.withdrawn) && id in s.claims
             && (s.claims[id].status == Withdrawn ==> d.status == Withdrawn)
    ensures WithdrawnStay(s.claims[id := d], s.created, s.withdrawn)
  {
    forall w | w in s.withdrawn ensures WithdrawnFits(s.claims[id := d], s.created, w) {
      assert WithdrawnFits(s.claims, s.created, w);
    }
  }

  lemma AdvancedSafe(s: State, id: Id, d: Claim)
    requires Safe(s) && id in s.claims && Advanced(s.claims[id], d)
             && (d.status == Withdrawn ==> s.claims[id].status == Withdrawn)
    ensures Safe(s.(claims := s.claims[id := d]))
  {
    AdvancedTables(s, id, d);
    AdvancedCalls(s, id, d);
    AdvancedWithdrawals(s, id, d);
  }

  lemma StatusAt(s: State, id: Id)
    requires Safe(s) && id in s.claims
    ensures StatusFits(s.claims[id])
  {}

  lemma CheckedSafe(s: State, id: Id)
    requires Safe(s)
    ensures Safe(Checked(s, id))
  {
    if id in s.claims {
      var d := s.claims[id].(checks := s.claims[id].checks + 1);
      CountedSafe(s, id, s.claims[id], d);
      assert Checked(s, id) == s.(claims := s.claims[id := d]);
    } else {
      assert Checked(s, id) == s;
    }
  }

  lemma CountedSafe(s: State, id: Id, c: Claim, d: Claim)
    requires Safe(s) && id in s.claims && s.claims[id] == c && d == c.(checks := d.checks)
    ensures Safe(s.(claims := s.claims[id := d]))
  {
    assert Advanced(c, d) by { StatusAt(s, id); }
    AdvancedSafe(s, id, d);
  }

  // ----- a claim is added -----

  lemma InsertTables(s: State, id: Id, c: Claim)
    requires Safe(s) && id !in s.claims && !Taken(s.claims, c.domain) && c.status == Pending && c.source.None?
    ensures var claims := s.claims[id := c];
            && OneLive(claims) && Statuses(claims) && CreatedProved(claims, s.sources, s.proved, s.created)
            && NamesCreated(claims, s.created)
  {}

  lemma InsertSafe(s: State, id: Id, c: Claim)
    requires Safe(s) && id !in s.claims && !Taken(s.claims, c.domain) && c.status == Pending && c.source.None?
    ensures Safe(s.(claims := s.claims[id := c]))
  {
    var claims := s.claims[id := c];
    InsertTables(s, id, c);
    assert CallsFit(s.calls, claims, s.proved, s.created) by {
      forall k | k in s.calls ensures TaskFits(claims, s.proved, s.created, s.calls[k]) {
        assert TaskFits(s.claims, s.proved, s.created, s.calls[k]);
      }
    }
    assert WithdrawnStay(claims, s.created, s.withdrawn) by {
      forall w | w in s.withdrawn ensures WithdrawnFits(claims, s.created, w) {
        assert WithdrawnFits(s.claims, s.created, w);
      }
    }
  }

  // ----- a verification commits -----

  lemma CreatedByMore(created: seq<(Id, Key)>, x: (Id, Key), id: Id, n: nat)
    requires n <= |created|
    ensures CreatedBy(created + [x], id, n) <==> CreatedBy(created, id, n)
    ensures CreatedBy(created + [x], id, |created| + 1) <==> CreatedBy(created, id, |created|) || x.0 == id
  {
    var more := created + [x];
    assert more[|created|] == x && forall i :: 0 <= i < |created| ==> more[i] == created[i];
  }

  lemma RacedMore(created: seq<(Id, Key)>, x: (Id, Key), w: Withdrawal)
    requires w.until <= |created|
    ensures Raced(created + [x], w) <==> Raced(created, w)
  {
    assert forall i :: 0 <= i < |created| ==> (created + [x])[i] == created[i];
  }

  /** A pending claim's source: the claim has none yet, and it has not been withdrawn. */
  lemma PendingIsNew(s: State, id: Id)
    requires Safe(s) && id in s.claims && s.claims[id].status == Pending
    ensures !CreatedBy(s.created, id, |s.created|)
    ensures forall w :: w in s.withdrawn ==> w.id != id
  {
    assert StatusFits(s.claims[id]);
    forall w | w in s.withdrawn ensures w.id != id {
      assert WithdrawnFits(s.claims, s.created, w);
    }
  }

  lemma VerifiedTables(s: State, id: Id, d: Claim, key: Key, source: Source)
    requires Safe(s) && id in s.claims && s.claims[id].status == Pending && id in s.proved && key !in s.sources
    requires d.domain == s.claims[id].domain && d.status == Verified && d.source == Some(key)
    ensures var claims, sources, created := s.claims[id := d], s.sources[key := source], s.created + [(id, key)];
            && OneLive(claims) && Statuses(claims) && OnceEach(created)
                 && CreatedProved(claims, sources, s.proved, created)
  {
    PendingIsNew(s, id);
    var claims, sources, created := s.claims[id := d], s.sources[key := source], s.created + [(id, key)];
    assert OneLive(claims) by { AdvancedLive(s.claims, id, d); }
    assert Statuses(claims) by { assert Statuses(s.claims); }
    assert OnceEach(created) by { OnceMore(s, id, key); }
    assert CreatedProved(claims, sources, s.proved, created) by { CreatedMore(s, id, d, key, source); }
  }

  lemma OnceMore(s: State, id: Id, key: Key)
    requires OnceEach(s.created) && !CreatedBy(s.created, id, |s.created|) && key !in s.sources
    requires forall i :: 0 <= i < |s.created| ==> s.created[i].1 in s.sources
    ensures OnceEach(s.created + [(id, key)])
  {}

  lemma CreatedMore(s: State, id: Id, d: Claim, key: Key, source: Source)
    requires CreatedProved(s.claims, s.sources, s.proved, s.created) && !CreatedBy(s.created, id, |s.created|)
    requires id in s.claims && id in s.proved && d.source == Some(key)
    ensures CreatedProved(s.claims[id := d], s.sources[key := source], s.proved, s.created + [(id, key)])
  {
    var created := s.created + [(id, key)];
    assert created[|s.created|] == (id, key) && forall i :: 0 <= i < |s.created| ==> created[i] == s.created[i];
  }

  lemma VerifiedNames(s: State, id: Id, d: Claim, key: Key, source: Source)
    requires Safe(s) && id in s.claims && d.source == Some(key)
    ensures NamesCreated(s.claims[id := d], s.created + [(id, key)])
            && AllCreated(s.sources[key := source], s.created + [(id, key)])
  {
    var created := s.created + [(id, key)];
    assert created[|s.created|] == (id, key) && forall i :: 0 <= i < |s.created| ==> created[i] == s.created[i];
    var claims := s.claims[id := d];
    forall i | i in claims ensures NameFits(claims[i], created, i) {
      assert i in s.claims && NameFits(s.claims[i], s.created, i);
      CreatedByMore(s.created, (id, key), i, |s.created|);
    }
    var sources := s.sources[key := source];
    forall k | k in sources ensures exists i :: 0 <= i < |created| && created[i].1 == k {
      if k in s.sources {
        var i :| 0 <= i < |s.created| && s.created[i].1 == k;
        assert created[i].1 == k;
      }
    }
  }

  lemma VerifiedCalls(s: State, id: Id, d: Claim, key: Key)
    requires Safe(s) && id in s.claims && s.claims[id].status == Pending
    ensures CallsFit(s.calls, s.claims[id := d], s.proved, s.created + [(id, key)])
  {
    assert StatusFits(s.claims[id]);
    forall c | c in s.calls ensures TaskFits(s.claims[id := d], s.proved, s.created + [(id, key)], s.calls[c]) {
      var t := s.calls[c];
      assert TaskFits(s.claims, s.proved, s.created, t);
      if t.Withdrawing? { CreatedByMore(s.created, (id, key), t.id, t.since); }
    }
  }

  lemma VerifiedWithdrawals(s: State, id: Id, d: Claim, key: Key, source: Source)
    requires Safe(s) && id in s.claims && s.claims[id].status == Pending && key !in s.sources && source.enabled
    ensures WithdrawnStay(s.claims[id := d], s.created + [(id, key)], s.withdrawn)
    ensures EnabledFits(s.sources[key := source], s.created + [(id, key)], s.withdrawn)
  {
    var created := s.created + [(id, key)];
    PendingIsNew(s, id);
    forall w | w in s.withdrawn
      ensures WithdrawnFits(s.claims[id := d], created, w) && (Raced(created, w) <==> Raced(s.created, w))
    {
      assert WithdrawnFits(s.claims, s.created, w);
      CreatedByMore(s.created, (id, key), w.id, w.until);
      CreatedByMore(s.created, (id, key), w.id, |s.created|);
      RacedMore(s.created, (id, key), w);
    }
    forall i | 0 <= i < |created|
      ensures EnabledAt(s.sources[key := source], created, s.withdrawn, created[i].0, created[i].1)
    {
      if i < |s.created| {
        assert EnabledAt(s.sources, s.created, s.withdrawn, s.created[i].0, s.created[i].1);
      }
    }
  }

  lemma ConfirmedSafe(s: State, id: Id, key: Key, terms: string)
    requires Safe(s) && id in s.claims && s.claims[id].status == Pending && id in s.proved && key !in s.sources
    ensures Safe(Confirmed(s, id, key, terms))
  {
    var d, source := Proven(s.claims[id], key, terms), Source(s.claims[id].owner, true, terms);
    VerifiedTables(s, id, d, key, source);
    VerifiedNames(s, id, d, key, source);
    VerifiedCalls(s, id, d, key);
    VerifiedWithdrawals(s, id, d, key, source);
  }

  lemma VerifySafe(naming: Naming, s: State, call: Call, ok: bool)
    requires Safe(s) && call in s.calls && s.calls[call].Proved?
    ensures Safe(Verify(naming, s, call, ok))
  {
    var p := s.calls[call];
    assert TaskFits(s.claims, s.proved, s.created, p);
    if !ok || (s.claims[p.id].status == Pending && naming(p.id, p.read.domain) in s.sources) {
      BeganSafe(s, call, Uncounted(p.id));
    } else {
      EndedSafe(s, call);
      if s.claims[p.id].status == Pending {
        ConfirmedSafe(Ended(s, call), p.id, naming(p.id, p.read.domain), p.terms);
      }
    }
  }

  // ----- a withdrawal commits -----

  lemma WithdrawnEnabled(s: State, w: Task, i: nat)
    requires Safe(s) && w.Withdrawing? && TaskFits(s.claims, s.proved, s.created, w) && i < |s.created|
    ensures EnabledAt(Disabled(s.sources, w.read.source), s.created,
              s.withdrawn + [Withdrawal(w.id, w.since, |s.created|)],
                      s.created[i].0, s.created[i].1)
  {
    var id, key, mine := s.created[i].0, s.created[i].1, Withdrawal(w.id, w.since, |s.created|);
    assert EnabledAt(s.sources, s.created, s.withdrawn, id, key);
    assert w.read.source == Some(key) <==> id == w.id && i < w.since by { NamedWhenRead(s, w, i); }
    assert id == w.id ==> (Raced(s.created, mine) <==> w.since <= i) by { if id == w.id { MineRaced(s, w, i); } }
    EnabledNext(s.sources, s.created, s.withdrawn, w.read.source, mine, id, key);
  }

  /** A withdrawal disables the source it read; one created since the read overtakes it. */
  lemma EnabledNext(sources: map<Key, Source>, created: seq<(Id, Key)>, withdrawn: seq<Withdrawal>, named: Option<Key>,
                    mine: Withdrawal,
                    id: Id, key: Key)
    requires EnabledAt(sources, created, withdrawn, id, key)
    requires named == Some(key) <==> id == mine.id && !Raced(created, mine)
    ensures EnabledAt(Disabled(sources, named), created, withdrawn + [mine], id, key)
  {
    var more := withdrawn + [mine];
    assert mine in more && forall x :: x in more <==> x in withdrawn || x == mine;
  }

  /** What a withdrawal read is the claim's source exactly when that was created before the read. */
  lemma NamedWhenRead(s: State, w: Task, i: nat)
    requires OnceEach(s.created) && CreatedProved(s.claims, s.sources, s.proved, s.created) && i < |s.created|
    requires w.Withdrawing? && TaskFits(s.claims, s.proved, s.created, w)
    ensures w.read.source == Some(s.created[i].1) <==> s.created[i].0 == w.id && i < w.since
  {
    if w.read.source.Some? {
      var j :| 0 <= j < |s.created| && j < w.since && s.created[j].0 == w.id;
      assert w.read.source == Some(s.created[j].1);
    }
    if s.created[i].0 == w.id && i < w.since {
      assert CreatedBy(s.created, w.id, w.since);
    }
  }

  lemma MineRaced(s: State, w: Task, i: nat)
    requires OnceEach(s.created) && w.Withdrawing? && i < |s.created| && s.created[i].0 == w.id
    ensures Raced(s.created, Withdrawal(w.id, w.since, |s.created|)) <==> w.since <= i
  {}

  lemma WithdrawnAll(s: State, w: Task)
    requires Safe(s) && w.Withdrawing? && TaskFits(s.claims, s.proved, s.created, w)
    ensures EnabledFits(Disabled(s.sources, w.read.source), s.created,
              s.withdrawn + [Withdrawal(w.id, w.since, |s.created|)])
  {
    var sources, withdrawn :=
      Disabled(s.sources, w.read.source), s.withdrawn + [Withdrawal(w.id, w.since, |s.created|)];
    forall i | 0 <= i < |s.created| ensures EnabledAt(sources, s.created, withdrawn, s.created[i].0, s.created[i].1) {
      WithdrawnEnabled(s, w, i);
    }
  }

  lemma WithdrawnBy(claims: map<Id, Claim>, withdrawn: seq<Withdrawal>, d: Claim, mine: Withdrawal)
    requires WithdrawnByCall(claims, withdrawn)
    ensures WithdrawnByCall(claims[mine.id := d], withdrawn + [mine])
  {
    var more := withdrawn + [mine];
    assert mine in more;
    forall id | id in claims && id != mine.id && claims[id].status == Withdrawn ensures WithdrawalOf(more, id) {
      var x :| x in withdrawn && x.id == id;
      assert x in more;
    }
  }

  lemma WithdrawnStill(s: State, d: Claim, mine: Withdrawal)
    requires WithdrawnStay(s.claims, s.created, s.withdrawn) && mine.id in s.claims && d.status == Withdrawn
    requires mine.since <= mine.until == |s.created|
    ensures WithdrawnStay(s.claims[mine.id := d], s.created, s.withdrawn + [mine])
  {
    AdvancedWithdrawals(s, mine.id, d);
    assert WithdrawnFits(s.claims[mine.id := d], s.created, mine);
  }

  lemma WithdrawSafe(s: State, w: Task)
    requires Safe(s) && w.Withdrawing? && TaskFits(s.claims, s.proved, s.created, w)
    ensures Safe(Withdraw(s, w))
  {
    var d, mine := s.claims[w.id].(status := Withdrawn), Withdrawal(w.id, w.since, |s.created|);
    var sources := Disabled(s.sources, w.read.source);
    var t := s.(sources := sources, claims := s.claims[w.id := d], withdrawn := s.withdrawn + [mine]);
    assert Safe(t) by {
      AdvancedTables(s, w.id, d);
      AdvancedCalls(s, w.id, d);
      WithdrawnAll(s, w);
      WithdrawnStill(s, d, mine);
      WithdrawnBy(s.claims, s.withdrawn, d, mine);
      DisabledCreated(s, sources, w.read.source);
    }
    assert Withdraw(s, w) == t;
  }

  lemma DisabledCreated(s: State, sources: map<Key, Source>, named: Option<Key>)
    requires sources == Disabled(s.sources, named)
    ensures sources.Keys == s.sources.Keys
    ensures AllCreated(s.sources, s.created) ==> AllCreated(sources, s.created)
  {}

  // ----- every step, every run -----

  lemma NextSafe(naming: Naming, s: State, a: Step)
    requires Safe(s)
    ensures Safe(Next(naming, s, a))
  {
    match a
    case Lookup(call, found, _) =>
      if call in s.calls && s.calls[call].Checking? { LookupSafe(naming, s, a); }
    case RecordCheck(call) =>
      if call in s.calls && s.calls[call].Uncounted? {
        EndedSafe(s, call);
        CheckedSafe(Ended(s, call), s.calls[call].id);
      }
    case CommitVerify(call, ok) =>
      if call in s.calls && s.calls[call].Proved? { VerifySafe(naming, s, call, ok); }
    case CommitWithdraw(call) =>
      if call in s.calls && s.calls[call].Withdrawing? {
        EndedSafe(s, call);
        WithdrawSafe(Ended(s, call), s.calls[call]);
      }
    case Insert(call, id) =>
      if call in s.calls && s.calls[call].Adding? && id !in s.claims {
        EndedSafe(s, call);
        if !Taken(s.claims, s.calls[call].domain) {
          InsertSafe(Ended(s, call), id, Claim(s.calls[call].owner, s.calls[call].domain, Pending, None, None, 0));
        }
      }
    case Expire(id) =>
      if id in s.claims && s.claims[id].status == Pending {
        assert StatusFits(s.claims[id]);
        AdvancedSafe(s, id, s.claims[id].(status := Failed));
      }
    case _ => ReadSafe(naming, s, a);
  }

  lemma LookupSafe(naming: Naming, s: State, a: Step)
    requires Safe(s) && a.Lookup? && a.call in s.calls && s.calls[a.call].Checking?
    ensures Safe(Next(naming, s, a))
  {
    var id := s.calls[a.call].id;
    assert TaskFits(s.claims, s.proved, s.created, s.calls[a.call]);
    if a.found {
      ProvedSafe(s, id);
      BeganSafe(s.(proved := s.proved + {id}), a.call, Proved(id, s.calls[a.call].read, a.terms));
    } else {
      BeganSafe(s, a.call, Uncounted(id));
    }
  }

  lemma ReadSafe(naming: Naming, s: State, a: Step)
    requires Safe(s) && (a.ReadToAdd? || a.ReadToVerify? || a.ReadToRecheck? || a.ReadToWithdraw?)
    ensures Safe(Next(naming, s, a))
  {
    if a.ReadToAdd? {
      BeganSafe(s, a.call, Adding(a.owner, a.domain));
    } else if a.id in s.claims {
      if a.ReadToWithdraw? {
        NamedIffCreated(s, a.id);
        BeganSafe(s, a.call, Withdrawing(a.id, s.claims[a.id], |s.created|));
      } else {
        BeganSafe(s, a.call, Checking(a.id, s.claims[a.id]));
      }
    }
  }

  lemma NamedIffCreated(s: State, id: Id)
    requires Safe(s) && id in s.claims
    ensures s.claims[id].source.Some? <==> CreatedBy(s.created, id, |s.created|)
  {}

  /** Every interleaving of calls keeps the tables safe. */
  lemma {:induction false} RunSafe(naming: Naming, steps: seq<Step>)
    ensures Safe(Run(naming, steps))
  {
    if steps != [] {
      RunSafe(naming, steps[..|steps| - 1]);
      NextSafe(naming, Run(naming, steps[..|steps| - 1]), steps[|steps| - 1]);
    }
  }

  // ----- what that means -----

  /** In every run a domain has at most one pending or verified claim. */
  lemma OneLiveClaim(naming: Naming, steps: seq<Step>, a: Id, b: Id)
    requires var claims := Run(naming, steps).claims;
             a in claims && b in claims && Live(claims[a]) && Live(claims[b]) && claims[a].domain == claims[b].domain
    ensures a == b
  {
    RunSafe(naming, steps);
  }

  /** In every run each claim has had at most one source created, and has been proved if it has one. */
  lemma OneProvedSource(naming: Naming, steps: seq<Step>, i: nat, j: nat)
    requires i < |Run(naming, steps).created| && j < |Run(naming, steps).created|
    ensures var s := Run(naming, steps);
            && s.created[i].0 in s.proved
            && (s.created[i].0 == s.created[j].0 || s.created[i].1 == s.created[j].1 ==> i == j)
  {
    RunSafe(naming, steps);
  }

  /** A source is created only by a commit, for a proved claim that is pending at that moment and verified by it. */
  lemma CreatedAtCommit(naming: Naming, s: State, a: Step)
    requires Safe(s) && Next(naming, s, a).created != s.created
    ensures a.CommitVerify? && a.call in s.calls && s.calls[a.call].Proved?
    ensures var id := s.calls[a.call].id;
            && id in s.proved && id in s.claims && s.claims[id].status == Pending
            && Next(naming, s, a).claims[id].status == Verified
            && Next(naming, s, a).created == s.created + [(id, naming(id, s.calls[a.call].read.domain))]
  {
    CreatedByStep(naming, s, a);
    TaskOf(s, a.call);
  }

  /** The step that adds a source, whatever else holds of the tables. */
  lemma CreatedByStep(naming: Naming, s: State, a: Step)
    requires Next(naming, s, a).created != s.created
    ensures a.CommitVerify? && a.call in s.calls && s.calls[a.call].Proved?
    ensures var id := s.calls[a.call].id;
            && id in s.claims && s.claims[id].status == Pending
            && Next(naming, s, a).claims[id].status == Verified
            && Next(naming, s, a).created == s.created + [(id, naming(id, s.calls[a.call].read.domain))]
  {}

  /** pending, then verified or failed, then withdrawn. */
  predicate StatusNext(c: Status, d: Status) {
    c == d || c == Pending || d == Withdrawn
  }

  /** The same claim later: its status has not gone back; its owner, domain, source and permission note stay. */
  ghost predicate OnwardOne(c: Claim, d: Claim) {
    && StatusNext(c.status, d.status) && d.owner == c.owner && d.domain == c.domain
    && (c.source.Some? ==> d.source == c.source && d.terms == c.terms)
  }

  /**
   No step moves a claim's status back, changes whose claim it is, or takes its source or its permission note away.
   */
  lemma StatusNeverBack(naming: Naming, s: State, a: Step, id: Id)
    requires Safe(s) && id in s.claims
    ensures id in Next(naming, s, a).claims
    ensures var c, d := s.claims[id], Next(naming, s, a).claims[id];
            OnwardOne(c, d)
  {
    StatusAt(s, id);
    StatusAfter(naming, s, a, id);
  }

  /** The step of one claim, by what its status allows. */
  lemma StatusAfter(naming: Naming, s: State, a: Step, id: Id)
    requires id in s.claims && StatusFits(s.claims[id])
    ensures id in Next(naming, s, a).claims
    ensures var c, d := s.claims[id], Next(naming, s, a).claims[id];
            OnwardOne(c, d)
  {}

  /**
   In every run, a claim that named a source when it was withdrawn has it disabled: the source is on exactly while each
   withdrawal of the claim was overtaken by its verification, which committed between that withdrawal's read and its
   commit.
   */
  lemma SourceOnExactly(naming: Naming, steps: seq<Step>, id: Id)
    requires id in Run(naming, steps).claims && Run(naming, steps).claims[id].source.Some?
    ensures var s := Run(naming, steps);
            var key := s.claims[id].source.value;
            && key in s.sources
            && (s.claims[id].status == Withdrawn <==> WithdrawalOf(s.withdrawn, id))
            && (s.sources[key].enabled <==> forall w :: w in s.withdrawn && w.id == id ==> Raced(s.created, w))
  {
    RunSafe(naming, steps);
    var s := Run(naming, steps);
    var i :| 0 <= i < |s.created| && s.created[i].0 == id;
    assert EnabledAt(s.sources, s.created, s.withdrawn, s.created[i].0, s.created[i].1);
    forall w | w in s.withdrawn && w.id == id ensures s.claims[id].status == Withdrawn {
      assert WithdrawnFits(s.claims, s.created, w);
    }
  }

  lemma RunOne(naming: Naming, steps: seq<Step>, a: Step)
    ensures Run(naming, steps + [a]) == Next(naming, Run(naming, steps), a)
  {
    assert (steps + [a])[..|steps|] == steps;
  }

  /** A claim is added, and a check of it reads it. */
  function UpToCheck(owner: string, domain: string, id: Id): seq<Step> {
    [ReadToAdd(0, owner, domain)] + [Insert(0, id)] + [ReadToVerify(1, owner, id)]
  }

  /**
   The proof is found; a withdrawal reads the pending claim; the verification commits; then the withdrawal commits.
   */
  function Overtaken(owner: string, domain: string, id: Id, note: string): seq<Step> {
    UpToCheck(owner, domain, id)
    + [Lookup(1, true, note)] + [ReadToWithdraw(2, owner, id)] + [CommitVerify(1, true)] + [CommitWithdraw(2)]
  }

  lemma CheckingRun(naming: Naming, owner: string, domain: string, id: Id)
    ensures var s := Run(naming, UpToCheck(owner, domain, id));
            var c := Claim(owner, domain, Pending, None, None, 0);
            s.claims == map[id := c] && s.sources == map[] && s.calls == map[1 := Checking(id, c)] && s.created == []
  {
    var a, b := ReadToAdd(0, owner, domain), Insert(0, id);
    RunOne(naming, [], a);
    assert [] + [a] == [a];
    assert Run(naming, [a]).calls == map[0 := Adding(owner, domain)];
    RunOne(naming, [a], b);
    assert Run(naming, [a] + [b]).calls == map[];
    RunOne(naming, [a] + [b], ReadToVerify(1, owner, id));
  }

  /** The committed verification's source, and the withdrawal still holding the claim as it was before. */
  lemma OvertakenRun(naming: Naming, s: State, owner: string, domain: string, id: Id, note: string)
    requires var c := Claim(owner, domain, Pending, None, None, 0);
             s.claims == map[id := c] && s.sources == map[] && s.calls == map[1 := Checking(id, c)]
    ensures var c := Claim(owner, domain, Pending, None, None, 0);
            var found := Next(naming, s, Lookup(1, true, note));
            var t := Next(naming, Next(naming, found, ReadToWithdraw(2, owner, id)), CommitVerify(1, true));
            var key := naming(id, domain);
            && id in t.claims && t.claims[id]
                 == c.(status := Verified, source := Some(key), terms := Some(note), checks := 1)
            && key in t.sources && t.sources[key].enabled
            && 2 in t.calls && t.calls[2].Withdrawing? && t.calls[2].id == id && t.calls[2].read == c
  {}

  /** A withdrawal overtaken by its claim's verification leaves the source on, whoever the merchant is. */
  lemma OvertakenStaysOn(naming: Naming, owner: string, domain: string, id: Id, note: string)
    ensures var s := Run(naming, Overtaken(owner, domain, id, note));
            var key := naming(id, domain);
            && id in s.claims && s.claims[id].status == Withdrawn && s.claims[id].source == Some(key)
            && key in s.sources && s.sources[key].enabled
  {
    var steps := UpToCheck(owner, domain, id);
    CheckingRun(naming, owner, domain, id);
    OvertakenRun(naming, Run(naming, steps), owner, domain, id, note);
    RunOne(naming, steps, Lookup(1, true, note));
    RunOne(naming, steps + [Lookup(1, true, note)], ReadToWithdraw(2, owner, id));
    RunOne(naming, steps + [Lookup(1, true, note)] + [ReadToWithdraw(2, owner, id)], CommitVerify(1, true));
    RunOne(naming, steps + [Lookup(1, true, note)] + [ReadToWithdraw(2, owner, id)] + [CommitVerify(1, true)],
      CommitWithdraw(2));
  }

  // ----- the tables at work -----

  /** From one state of the claims to a later one: none is lost, and none goes back. */
  ghost predicate Onward(claims: map<Id, Claim>, later: map<Id, Claim>) {
    forall id :: id in claims ==> id in later && OnwardOne(claims[id], later[id])
  }

  /** What a step keeps, for whoever takes it. */
  lemma NextKeeps(naming: Naming, s: State, a: Step)
    requires Safe(s)
    ensures Safe(Next(naming, s, a)) && Onward(s.claims, Next(naming, s, a).claims)
  {
    NextSafe(naming, s, a);
    forall id | id in s.claims
      ensures id in Next(naming, s, a).claims && OnwardOne(s.claims[id], Next(naming, s, a).claims[id])
    {
      StatusNeverBack(naming, s, a, id);
    }
  }

  /** The claims but for `id`. */
  ghost predicate OthersStay(claims: map<Id, Claim>, later: map<Id, Claim>, id: Id) {
    later.Keys == claims.Keys + {id} && forall other :: other in claims && other != id ==> later[other] == claims[other]
  }

  /** The only live claim of its domain. */
  ghost predicate OnlyLive(claims: map<Id, Claim>, id: Id) {
    id in claims && Live(claims[id])
    && forall other :: other in claims && Live(claims[other]) && claims[other].domain == claims[id].domain ==>
         other == id
  }

  lemma LiveIsOnly(s: State, id: Id)
    requires Safe(s) && id in s.claims && Live(s.claims[id])
    ensures OnlyLive(s.claims, id)
  {}

  lemma ProvedPending(s: State, call: Call)
    requires Safe(s) && call in s.calls && s.calls[call].Proved?
    ensures s.calls[call].id in s.proved && s.calls[call].id in s.claims
    ensures s.claims[s.calls[call].id].status == Pending ==> !CreatedBy(s.created, s.calls[call].id, |s.created|)
  {
    assert TaskFits(s.claims, s.proved, s.created, s.calls[call]);
    if s.claims[s.calls[call].id].status == Pending { PendingIsNew(s, s.calls[call].id); }
  }

  /** A withdrawn claim's source is on exactly while every withdrawal of it was overtaken. */
  ghost predicate OffUnlessOvertaken(s: State, id: Id) {
    && id in s.claims && s.claims[id].status == Withdrawn
    && (s.claims[id].source.Some? ==>
          var key := s.claims[id].source.value;
          key in s.sources && (s.sources[key].enabled <==>
            forall w :: w in s.withdrawn && w.id == id ==> Raced(s.created, w)))
  }

  lemma NamedEnabled(s: State, id: Id)
    requires Safe(s) && id in s.claims && s.claims[id].status == Withdrawn
    ensures OffUnlessOvertaken(s, id)
  {
    if s.claims[id].source.Some? {
      assert NameFits(s.claims[id], s.created, id);
      var i :| 0 <= i < |s.created| && s.created[i].0 == id;
      assert EnabledAt(s.sources, s.created, s.withdrawn, s.created[i].0, s.created[i].1);
    }
  }

  /**
   The transaction that creates the source and verifies the claim, from `s` to `t`, with note `terms`: it does both or
   neither.
   */
  ghost predicate BothOrNeither(s: State, t: State, id: Id, terms: string, verified: bool) {
    && id in s.claims && id in t.claims && OthersStay(s.claims, t.claims, id)
    && if verified then
         && id in s.proved && s.claims[id].status == Pending && !CreatedBy(s.created, id, |s.created|)
         && t.claims[id].status == Verified && OnlyLive(t.claims, id) && t.claims[id].source.Some?
         && t.claims[id].source.value !in s.sources
         && t.sources == s.sources[t.claims[id].source.value := Source(t.claims[id].owner, true, terms)]
       else
         t.sources == s.sources && t.created == s.created && t.claims == s.claims
  }

  /** Its call: over, unless the transaction failed; then its check is still to be counted. */
  ghost predicate ToBeCounted(s: State, t: State, call: Call, id: Id, verified: bool) {
    && t.calls - {call} == s.calls - {call}
    && (call in t.calls ==> !verified && t.calls[call] == Uncounted(id))
    && (!verified && id in s.claims && s.claims[id].status == Pending ==> call in t.calls)
  }

  /** What the transaction does to the rows, whatever else holds of the tables. */
  lemma VerifyRows(naming: Naming, s: State, call: Call, ok: bool)
    requires call in s.calls && s.calls[call].Proved? && s.calls[call].id in s.claims
    ensures var t, p := Next(naming, s, CommitVerify(call, ok)), s.calls[call];
            && p.id in t.claims && OthersStay(s.claims, t.claims, p.id)
            && if t.created != s.created then
                 && s.claims[p.id].status == Pending
                 && t.claims[p.id].status == Verified && t.claims[p.id].source == Some(naming(p.id, p.read.domain))
                 && naming(p.id, p.read.domain) !in s.sources
                 && t.sources == s.sources[naming(p.id, p.read.domain) := Source(t.claims[p.id].owner, true, p.terms)]
               else
                 t.sources == s.sources && t.claims == s.claims
  {}

  lemma VerifyMeans(naming: Naming, s: State, call: Call, ok: bool)
    requires Safe(s) && call in s.calls && s.calls[call].Proved?
    ensures var t, p := Next(naming, s, CommitVerify(call, ok)), s.calls[call];
            BothOrNeither(s, t, p.id, p.terms, t.created != s.created)
  {
    var t, id := Next(naming, s, CommitVerify(call, ok)), s.calls[call].id;
    ProvedPending(s, call);
    VerifyRows(naming, s, call, ok);
    if t.created != s.created {
      assert OnlyLive(t.claims, id) by {
        NextSafe(naming, s, CommitVerify(call, ok));
        LiveIsOnly(t, id);
      }
    }
  }

  lemma VerifyCalls(naming: Naming, s: State, call: Call, ok: bool)
    requires call in s.calls && s.calls[call].Proved?
    ensures var t := Next(naming, s, CommitVerify(call, ok));
            ToBeCounted(s, t, call, s.calls[call].id, t.created != s.created)
  {}

  lemma WithdrawRows(naming: Naming, s: State, call: Call)
    requires call in s.calls && s.calls[call].Withdrawing? && s.calls[call].id in s.claims
    ensures var t, id := Next(naming, s, CommitWithdraw(call)), s.calls[call].id;
            && id in t.claims && OthersStay(s.claims, t.claims, id)
            && t.claims[id].status == Withdrawn && t.sources.Keys == s.sources.Keys
  {}

  lemma WithdrawMeans(naming: Naming, s: State, call: Call)
    requires Safe(s) && call in s.calls && s.calls[call].Withdrawing?
    ensures var t, id := Next(naming, s, CommitWithdraw(call)), s.calls[call].id;
            OthersStay(s.claims, t.claims, id) && OffUnlessOvertaken(t, id) && t.sources.Keys == s.sources.Keys
  {
    var t, id := Next(naming, s, CommitWithdraw(call)), s.calls[call].id;
    assert id in s.claims by { TaskOf(s, call); }
    WithdrawRows(naming, s, call);
    assert OffUnlessOvertaken(t, id) by {
      NextSafe(naming, s, CommitWithdraw(call));
      NamedEnabled(t, id);
    }
  }

  lemma TaskOf(s: State, call: Call)
    requires Safe(s) && call in s.calls
    ensures TaskFits(s.claims, s.proved, s.created, s.calls[call])
  {}

  /** One check more, and otherwise as it was. */
  ghost predicate CountedOnce(claims: map<Id, Claim>, later: map<Id, Claim>, id: Id) {
    && id in claims && id in later && OthersStay(claims, later, id)
    && later[id] == claims[id].(checks := claims[id].checks + 1)
  }

  lemma RecordMeans(naming: Naming, s: State, call: Call)
    requires Safe(s) && call in s.calls && s.calls[call].Uncounted?
    ensures CountedOnce(s.claims, Next(naming, s, RecordCheck(call)).claims, s.calls[call].id)
  {
    TaskOf(s, call);
  }

  /** A pending claim has failed, without a source; any other stays as it was. */
  ghost predicate FailedIfPending(claims: map<Id, Claim>, later: map<Id, Claim>, id: Id) {
    if id in claims && claims[id].status == Pending then
      OthersStay(claims, later, id) && later[id].status == Failed && later[id].source.None?
    else later == claims
  }

  lemma ExpireMeans(naming: Naming, s: State, id: Id)
    requires Safe(s)
    ensures FailedIfPending(s.claims, Next(naming, s, Expire(id)).claims, id)
  {
    if id in s.claims { StatusAt(s, id); }
  }

  /** Of the claims not withdrawn, the verified ones are those with a source. */
  lemma VerifiedIffCreated(s: State, id: Id)
    requires Safe(s) && id in s.claims && s.claims[id].status != Withdrawn
    ensures s.claims[id].status == Verified <==> CreatedBy(s.created, id, |s.created|)
  {
    NamedIffCreated(s, id);
    StatusAt(s, id);
  }

  class Claims {
    const naming: Naming
    var claims: map<Id, Claim>
    var sources: map<Key, Source>
    var calls: map<Call, Task>
    // The history of the tables, which no step's outcome depends on.
    var proved: set<Id>
    var created: seq<(Id, Key)>
    var withdrawn: seq<Withdrawal>

    ghost function Tables(): State
      reads this
    {
      State(claims, sources, calls, proved, created, withdrawn)
    }

    ghost predicate Valid()
      reads this
    {
      Safe(Tables())
    }

    constructor (naming: Naming)
      ensures this.naming == naming && Tables() == EMPTY && Valid()
    {
      this.naming, claims, sources, calls := naming, map[], map[], map[];
      proved, created, withdrawn := {}, [], [];
    }

    /** `add`, up to its insert: refused, and nothing written, exactly when the domain has a live claim. */
    method StartAdd(call: Call, owner: string, domain: string) returns (ok: bool)
      requires Valid() && call !in calls
      modifies this`calls
      ensures Valid() && Tables() == Next(naming, old(Tables()), ReadToAdd(call, owner, domain))
      ensures ok <==> forall id :: id in claims && claims[id].domain == domain ==> !Live(claims[id])
    {
      NextKeeps(naming, Tables(), ReadToAdd(call, owner, domain));
      ok := !Taken(claims, domain);
      if ok { calls := calls[call := Adding(owner, domain)]; }
    }

    /**
     Its insert. However many calls passed the first check, the unique index lets one through: the new claim is the only
     live one of its domain, and a refused call leaves claims and sources as they were.
     */
    method FinishAdd(call: Call, id: Id) returns (ok: bool)
      requires Valid() && call in calls && calls[call].Adding? && id !in claims
      modifies this`claims, this`calls
      ensures Valid() && Tables() == Next(naming, old(Tables()), Insert(call, id))
      ensures if ok then OnlyLive(claims, id) && claims[id].status == Pending
                         && claims[id].owner == old(calls[call].owner)
                         && claims[id].domain == old(calls[call].domain) && OthersStay(old(claims), claims, id)
              else claims == old(claims) && Taken(claims, old(calls[call].domain))
    {
      NextKeeps(naming, Tables(), Insert(call, id));
      var task := calls[call];
      ok := !Taken(claims, task.domain);
      calls := calls - {call};
      if ok {
        claims := claims[id := Claim(task.owner, task.domain, Pending, None, None, 0)];
        LiveIsOnly(Tables(), id);
      }
    }

    /** `verify`, up to its lookup: only for the owner, and only while the claim can still be verified. */
    method StartVerify(call: Call, owner: string, id: Id) returns (ok: bool)
      requires Valid() && call !in calls
      modifies this`calls
      ensures Valid() && Tables() == Next(naming, old(Tables()), ReadToVerify(call, owner, id))
      ensures ok <==> id in claims && claims[id].owner == owner && claims[id].status == Pending
      ensures ok ==> OnlyLive(claims, id) && claims[id].source.None?
    {
      NextKeeps(naming, Tables(), ReadToVerify(call, owner, id));
      ok := id in claims && claims[id].owner == owner && claims[id].status == Pending;
      if ok {
        LiveIsOnly(Tables(), id);
        StatusAt(Tables(), id);
        calls := calls[call := Checking(id, claims[id])];
      }
    }

    /** A proof found or not. Only a found one lets the call go on to create a source. */
    method FinishLookup(call: Call, found: bool, terms: string)
      requires Valid() && call in calls && calls[call].Checking?
      modifies this`calls, this`proved
      ensures Valid() && Tables() == Next(naming, old(Tables()), Lookup(call, found, terms))
      ensures call in calls && (calls[call].Proved? <==> found) && (found ==> calls[call].id in proved)
    {
      NextKeeps(naming, Tables(), Lookup(call, found, terms));
      var task := calls[call];
      if found {
        calls, proved := calls[call := Proved(task.id, task.read, terms)], proved + {task.id};
      } else {
        calls := calls[call := Uncounted(task.id)];
      }
    }

    /**
     A check that came to nothing: the claim, whatever has become of it meanwhile, counts one more and is otherwise as
     it was.
     */
    method FinishCheck(call: Call)
      requires Valid() && call in calls && calls[call].Uncounted?
      modifies this`claims, this`calls
      ensures Valid() && Tables() == Next(naming, old(Tables()), RecordCheck(call))
      ensures CountedOnce(old(claims), claims, old(calls[call].id))
    {
      NextKeeps(naming, Tables(), RecordCheck(call));
      RecordMeans(naming, Tables(), call);
      CommitCheck(call);
    }

    method CommitCheck(call: Call)
      requires call in calls && calls[call].Uncounted?
      modifies this`claims, this`calls
      ensures Tables() == Next(naming, old(Tables()), RecordCheck(call))
    {
      var id := calls[call].id;
      calls := calls - {call};
      if id in claims { claims := claims[id := claims[id].(checks := claims[id].checks + 1)]; }
    }

    /**
     The transaction that creates the source and verifies the claim: both or neither. Both only for a claim that was
     proved, is still pending, and never had a source; the source is then the first under its key. When it failed, the
     call has its check still to count.
     */
    method FinishVerify(call: Call, ok: bool) returns (verified: bool)
      requires Valid() && call in calls && calls[call].Proved?
      modifies this`claims, this`sources, this`calls, this`created
      ensures Valid() && Tables() == Next(naming, old(Tables()), CommitVerify(call, ok))
              && Onward(old(claims), claims)
      ensures BothOrNeither(old(Tables()), Tables(), old(calls[call].id), old(calls[call].terms), verified)
      ensures ToBeCounted(old(Tables()), Tables(), call, old(calls[call].id), verified)
    {
      NextKeeps(naming, Tables(), CommitVerify(call, ok));
      VerifyMeans(naming, Tables(), call, ok);
      VerifyCalls(naming, Tables(), call, ok);
      verified := CommitProved(call, ok);
    }

    method CommitProved(call: Call, ok: bool) returns (verified: bool)
      requires call in calls && calls[call].Proved?
      modifies this`claims, this`sources, this`calls, this`created
      ensures Tables() == Next(naming, old(Tables()), CommitVerify(call, ok))
              && verified == (created != old(created))
    {
      var task := calls[call];
      verified := false;
      if !ok {
        calls := calls[call := Uncounted(task.id)];
      } else if task.id !in claims || claims[task.id].status != Pending {
        calls := calls - {call};
      } else if naming(task.id, task.read.domain) in sources {
        calls := calls[call := Uncounted(task.id)];
      } else {
        var c, key := claims[task.id], naming(task.id, task.read.domain);
        sources := sources[key := Source(c.owner, true, task.terms)];
        claims := claims[task.id := Proven(c, key, task.terms)];
        created := created + [(task.id, key)];
        calls := calls - {call};
        verified := true;
      }
    }

    /** `withdraw`, up to its transaction: for the owner, once. */
    method StartWithdraw(call: Call, owner: string, id: Id) returns (ok: bool)
      requires Valid() && call !in calls
      modifies this`calls
      ensures Valid() && Tables() == Next(naming, old(Tables()), ReadToWithdraw(call, owner, id))
      ensures ok <==> id in claims && claims[id].owner == owner && claims[id].status != Withdrawn
      ensures ok ==> (claims[id].status == Verified <==> CreatedBy(created, id, |created|))
    {
      NextKeeps(naming, Tables(), ReadToWithdraw(call, owner, id));
      ok := id in claims && claims[id].owner == owner && claims[id].status != Withdrawn;
      if ok {
        VerifiedIffCreated(Tables(), id);
        calls := calls[call := Withdrawing(id, claims[id], |created|)];
      }
    }

    /**
     Its transaction: the claim is withdrawn for good, and its source, if it has one, is off unless a verification
     overtook this withdrawal and every other one of the claim.
     */
    method FinishWithdraw(call: Call)
      requires Valid() && call in calls && calls[call].Withdrawing?
      modifies this`claims, this`sources, this`calls, this`withdrawn
      ensures Valid() && Tables() == Next(naming, old(Tables()), CommitWithdraw(call)) && Onward(old(claims), claims)
      ensures var id := old(calls[call].id);
              OthersStay(old(claims), claims, id) && OffUnlessOvertaken(Tables(), id)
                && sources.Keys == old(sources).Keys
    {
      NextKeeps(naming, Tables(), CommitWithdraw(call));
      WithdrawMeans(naming, Tables(), call);
      CommitWithdrawn(call);
    }

    method CommitWithdrawn(call: Call)
      requires call in calls && calls[call].Withdrawing?
      modifies this`claims, this`sources, this`calls, this`withdrawn
      ensures Tables() == Next(naming, old(Tables()), CommitWithdraw(call))
    {
      var task := calls[call];
      calls := calls - {call};
      withdrawn := withdrawn + [Withdrawal(task.id, task.since, |created|)];
      sources := Disabled(sources, task.read.source);
      if task.id in claims { claims := claims[task.id := claims[task.id].(status := Withdrawn)]; }
    }

    /** A pending claim fails; it has no source then and never will. */
    method Fail(id: Id)
      requires Valid()
      modifies this`claims
      ensures Valid() && Tables() == Next(naming, old(Tables()), Expire(id)) && Onward(old(claims), claims)
      ensures FailedIfPending(old(claims), claims, id)
    {
      NextKeeps(naming, Tables(), Expire(id));
      ExpireMeans(naming, Tables(), id);
      MarkFailed(id);
    }

    method MarkFailed(id: Id)
      modifies this`claims
      ensures Tables() == Next(naming, old(Tables()), Expire(id))
    {
      if id in claims && claims[id].status == Pending { claims := claims[id := claims[id].(status := Failed)]; }
    }

    /**
     The worker's pass over a claim: a pending one that is too old fails, never to be verified, one that is not is
     checked again; any other claim stays as it is.
     */
    method Recheck(id: Id, tooOld: bool, call: Call)
      requires Valid() && call !in calls
      modifies this`claims, this`calls
      ensures Valid() && Onward(old(claims), claims)
      ensures Tables() == Next(naming, old(Tables()), if tooOld then Expire(id) else ReadToRecheck(call, id))
      ensures if tooOld then FailedIfPending(old(claims), claims, id) else claims == old(claims)
    {
      if tooOld {
        Fail(id);
      } else {
        NextKeeps(naming, Tables(), ReadToRecheck(call, id));
        if id in claims && claims[id].status == Pending { calls := calls[call := Checking(id, claims[id])]; }
      }
    }

    /**
     Whichever call takes its next step: the tables are those of the step, and a step that cannot be taken changes
     nothing.
     */
    method Take(a: Step)
      requires Valid()
      modifies this
      ensures Valid() && Tables() == Next(naming, old(Tables()), a) && Onward(old(claims), claims)
    {
      NextKeeps(naming, Tables(), a);
      match a {
        case ReadToAdd(call, owner, domain) =>
          if call !in calls { var _ := StartAdd(call, owner, domain); }
        case Insert(call, id) =>
          if call in calls && calls[call].Adding? && id !in claims { var _ := FinishAdd(call, id); }
        case ReadToVerify(call, owner, id) =>
          if call !in calls { var _ := StartVerify(call, owner, id); }
        case ReadToRecheck(call, id) =>
          if call !in calls { Recheck(id, false, call); }
        case Lookup(call, found, terms) =>
          if call in calls && calls[call].Checking? { FinishLookup(call, found, terms); }
        case RecordCheck(call) =>
          if call in calls && calls[call].Uncounted? { FinishCheck(call); }
        case CommitVerify(call, ok) =>
          if call in calls && calls[call].Proved? { var _ := FinishVerify(call, ok); }
        case Expire(id) =>
          Fail(id);
        case ReadToWithdraw(call, owner, id) =>
          if call !in calls { var _ := StartWithdraw(call, owner, id); }
        case CommitWithdraw(call) =>
          if call in calls && calls[call].Withdrawing? { FinishWithdraw(call); }
      }
    }
  }
}
