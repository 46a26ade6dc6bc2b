/** The sidecar's data-policy table: buckets by resource, kept up by increments. */
module DataTable {

  import opened Tables
  import opened Iac
  import opened DataRows
  import opened Conditions

  type Parser = string -> Result<Condition, PolicyError>

  /** A stored policy; one with an unknown effect or an invalid condition is poisoned. */
  datatype Stored = Stored(id: nat, subjectType: string, subjectId: string, effect: string, cond: Result<Condition, PolicyError>)

  /** Parses a policy once, when it arrives. */
  function ToStored(parse: Parser, p: DataPolicy): Stored {
    var effect := NormEffect(p.effect);
    if KnownEffect(effect) then Stored(p.id, p.subjectType, p.subjectId, effect, parse(p.condition))
    else Stored(p.id, p.subjectType, p.subjectId, "", Failure(InvalidPolicy))
  }

  type Buckets = map<string, seq<Stored>>

  function BucketOf(m: Buckets, resource: string): seq<Stored> {
    if resource in m then m[resource] else []
  }

  function Put(m: Buckets, resource: string, s: Stored): Buckets {
    m[resource := BucketOf(m, resource) + [s]]
  }

  /** The first entry with the id is gone. */
  function DropFirst(bucket: seq<Stored>, id: nat): (r: seq<Stored>)
  {
    if bucket == [] then []
    else if bucket[0].id == id then bucket[1..]
    else [bucket[0]] + DropFirst(bucket[1..], id)
  }

  /** A bucket that becomes empty disappears with its key. */
  function Drop(m: Buckets, resource: string, id: nat): Buckets {
    var bucket := DropFirst(BucketOf(m, resource), id);
    if bucket == [] then m - {resource} else m[resource := bucket]
  }

  function Change(parse: Parser, m: Buckets, c: DataPolicyChange): Buckets {
    match c.op
    case ChangeAdd => Put(m, c.policy.resource, ToStored(parse, c.policy))
    case ChangeRemove => Drop(m, c.policy.resource, c.policy.id)
    case ChangeUpdate => Put(Drop(m, c.policy.resource, c.policy.id), c.policy.resource, ToStored(parse, c.policy))
  }

  function Changes(parse: Parser, m: Buckets, cs: seq<DataPolicyChange>): Buckets {
    if cs == [] then m else Change(parse, Changes(parse, m, cs[..|cs| - 1]), cs[|cs| - 1])
  }

  function Rebuilt(parse: Parser, ps: seq<DataPolicy>): Buckets {
    if ps == [] then map[] else Put(Rebuilt(parse, ps[..|ps| - 1]), ps[|ps| - 1].resource, ToStored(parse, ps[|ps| - 1]))
  }

  class Table {
    const parse: Parser
    var byRes: Buckets

    constructor (parse: Parser)
      ensures this.parse == parse && byRes == map[]
    {
      this.parse := parse;
      byRes := map[];
    }

    /** Rebuilds the whole table. */
    method ApplySnapshot(policies: seq<DataPolicy>)
      modifies this
      ensures byRes == Rebuilt(parse, policies)
    {
      var next: Buckets := map[];
      for i := 0 to |policies|
        invariant next == Rebuilt(parse, policies[..i])
      {
        assert policies[..i + 1][..i] == policies[..i];
        next := next[policies[i].resource := BucketOf(next, policies[i].resource) + [ToStored(parse, policies[i])]];
      }
      assert policies[..|policies|] == policies;
      byRes := next;
    }

    method RemoveLocked(resource: string, id: nat)
      modifies this
      ensures byRes == Drop(old(byRes), resource, id)
    {
      var bucket := BucketOf(byRes, resource);
      var i := 0;
      while i < |bucket| && bucket[i].id != id
        invariant 0 <= i <= |bucket|
        invariant DropFirst(bucket, id) == bucket[..i] + DropFirst(bucket[i..], id)
      {
        assert bucket[i..] == [bucket[i]] + bucket[i + 1..];
        i := i + 1;
      }
      if i < |bucket| {
        assert bucket[i..][0] == bucket[i] && bucket[i..][1..] == bucket[i + 1..];
        bucket := bucket[..i] + bucket[i + 1..];
      } else {
        assert bucket[..i] == bucket && DropFirst(bucket[i..], id) == [];
      }
      assert bucket == DropFirst(BucketOf(byRes, resource), id);
      if bucket == [] {
        byRes := byRes - {resource};
      } else {
        byRes := byRes[resource := bucket];
      }
    }

    method ApplyChange(c: DataPolicyChange)
      modifies this
      ensures byRes == Change(parse, old(byRes), c)
      ensures forall res | res != c.policy.resource ::
        BucketOf(byRes, res) == BucketOf(old(byRes), res) && (res in byRes <==> res in old(byRes))
      ensures c.op == ChangeAdd ==>
        BucketOf(byRes, c.policy.resource) == BucketOf(old(byRes), c.policy.resource) + [ToStored(parse, c.policy)]
      ensures c.op == ChangeUpdate ==>
        BucketOf(byRes, c.policy.resource) == DropFirst(BucketOf(old(byRes), c.policy.resource), c.policy.id) + [ToStored(parse, c.policy)]
      ensures c.op == ChangeRemove ==>
        BucketOf(byRes, c.policy.resource) == DropFirst(BucketOf(old(byRes), c.policy.resource), c.policy.id)
    {
      match c.op
      case ChangeAdd => byRes := byRes[c.policy.resource := BucketOf(byRes, c.policy.resource) + [ToStored(parse, c.policy)]];
      case ChangeRemove => RemoveLocked(c.policy.resource, c.policy.id);
      case ChangeUpdate =>
        RemoveLocked(c.policy.resource, c.policy.id);
        byRes := byRes[c.policy.resource := BucketOf(byRes, c.policy.resource) + [ToStored(parse, c.policy)]];
    }

    /** A copy of the bucket, and whether the resource is configured at all. */
    method Lookup(resource: string) returns (bucket: seq<Stored>, configured: bool)
      ensures configured <==> resource in byRes
      ensures bucket == BucketOf(byRes, resource)
    {
      configured := resource in byRes;
      bucket := BucketOf(byRes, resource);
    }
  }

  /** The policies of one resource, parsed, in the order in which they came. */
  function EntriesOf(parse: Parser, ps: seq<DataPolicy>, resource: string): seq<Stored> {
    if ps == [] then []
    else (if ps[0].resource == resource then [ToStored(parse, ps[0])] else []) + EntriesOf(parse, ps[1..], resource)
  }

  lemma {:induction false} EntriesMore(parse: Parser, ps: seq<DataPolicy>, p: DataPolicy, resource: string)
    ensures EntriesOf(parse, ps + [p], resource)
         == EntriesOf(parse, ps, resource) + if p.resource == resource then [ToStored(parse, p)] else []
  {
    if ps != [] {
      assert (ps + [p])[1..] == ps[1..] + [p];
      EntriesMore(parse, ps[1..], p, resource);
    }
  }

  /** A rebuilt bucket lists the policies of its resource in the order of the snapshot, and exists when there is one. */
  lemma {:induction false} RebuiltInOrder(parse: Parser, ps: seq<DataPolicy>, resource: string)
    ensures BucketOf(Rebuilt(parse, ps), resource) == EntriesOf(parse, ps, resource)
    ensures resource in Rebuilt(parse, ps) <==> EntriesOf(parse, ps, resource) != []
  {
    if ps != [] {
      var rest, last := ps[..|ps| - 1], ps[|ps| - 1];
      RebuiltInOrder(parse, rest, resource);
      EntriesMore(parse, rest, last, resource);
      assert rest + [last] == ps;
      hide ToStored;
    }
  }

  // ---------------------------------------------------------------- what the table stands for

  /** The table holds exactly these policies, each once in the bucket of its resource, and no empty bucket. */
  ghost predicate StandsFor(parse: Parser, m: Buckets, ps: map<nat, DataPolicy>) {
    && KeyedById(ps)
    && (forall res | res in m :: m[res] != [])
    && forall res :: multiset(BucketOf(m, res)) == ExpectedIn(parse, ps, res)
  }

  ghost predicate KeyedById(ps: map<nat, DataPolicy>) {
    forall id | id in ps :: ps[id].id == id
  }

  /** What a rebuilt bucket holds: every policy of the resource, once. */
  ghost function ExpectedIn(parse: Parser, ps: map<nat, DataPolicy>, res: string): multiset<Stored> {
    multiset(StoredIn(parse, ps, res))
  }

  ghost function StoredIn(parse: Parser, ps: map<nat, DataPolicy>, res: string): set<Stored> {
    set id | id in ps && ps[id].resource == res :: ToStored(parse, ps[id])
  }

  /** The change names the bucket that holds its id, or an id that is not there yet when it adds. */
  ghost predicate NamesBucket(ps: map<nat, DataPolicy>, c: DataPolicyChange) {
    match c.op
    case ChangeAdd => c.policy.id !in ps
    case ChangeRemove => c.policy.id in ps ==> ps[c.policy.id].resource == c.policy.resource
    case ChangeUpdate => c.policy.id in ps ==> ps[c.policy.id].resource == c.policy.resource
  }

  lemma {:induction false} DropFirstMultiset(bucket: seq<Stored>, s: Stored)
    requires s in bucket && forall x :: x in bucket && x.id == s.id ==> x == s
    ensures multiset(DropFirst(bucket, s.id)) == multiset(bucket) - multiset{s}
  {
    assert bucket == [bucket[0]] + bucket[1..];
    if bucket[0].id != s.id {
      DropFirstMultiset(bucket[1..], s);
    } else {
      assert bucket[0] == s;
    }
  }

  lemma {:induction false} DropFirstAbsent(bucket: seq<Stored>, id: nat)
    requires forall x :: x in bucket ==> x.id != id
    ensures DropFirst(bucket, id) == bucket
  {
    if bucket != [] {
      assert bucket == [bucket[0]] + bucket[1..];
      DropFirstAbsent(bucket[1..], id);
    }
  }

  lemma InBucket(parse: Parser, m: Buckets, ps: map<nat, DataPolicy>, res: string, s: Stored)
    requires StandsFor(parse, m, ps)
    ensures s in BucketOf(m, res) <==> s.id in ps && ps[s.id].resource == res && s == ToStored(parse, ps[s.id])
  {
    assert s in multiset(BucketOf(m, res)) <==> s in ExpectedIn(parse, ps, res);
    if s.id in ps && ps[s.id].resource == res && s == ToStored(parse, ps[s.id]) {
      assert s in StoredIn(parse, ps, res);
    }
  }

  lemma PutStored(parse: Parser, ps: map<nat, DataPolicy>, p: DataPolicy, res: string)
    requires KeyedById(ps) && p.id !in ps
    ensures StoredIn(parse, ps[p.id := p], res) == StoredIn(parse, ps, res) + if res == p.resource then {ToStored(parse, p)} else {}
    ensures ToStored(parse, p) !in StoredIn(parse, ps, res)
  {
    var ps' := ps[p.id := p];
    forall id | id in ps && ps[id].resource == res
      ensures ToStored(parse, ps[id]) in StoredIn(parse, ps', res)
    {
      assert ps'[id] == ps[id];
    }
    if res == p.resource {
      assert ps'[p.id] == p;
    }
  }

  lemma PutMatches(parse: Parser, m: Buckets, ps: map<nat, DataPolicy>, p: DataPolicy)
    requires StandsFor(parse, m, ps) && p.id !in ps
    ensures StandsFor(parse, Put(m, p.resource, ToStored(parse, p)), ps[p.id := p])
  {
    hide ToStored;
    forall res
      ensures multiset(BucketOf(Put(m, p.resource, ToStored(parse, p)), res)) == ExpectedIn(parse, ps[p.id := p], res)
    {
      PutStored(parse, ps, p, res);
      assert multiset(BucketOf(m, res)) == ExpectedIn(parse, ps, res);
      hide StoredIn;
    }
  }

  lemma DropAbsent(parse: Parser, m: Buckets, ps: map<nat, DataPolicy>, resource: string, id: nat)
    requires StandsFor(parse, m, ps) && (id in ps ==> ps[id].resource != resource)
    ensures Drop(m, resource, id) == m
  {
    var bucket := BucketOf(m, resource);
    forall x | x in bucket
      ensures x.id != id
    {
      InBucket(parse, m, ps, resource, x);
    }
    DropFirstAbsent(bucket, id);
  }

  lemma DropStored(parse: Parser, ps: map<nat, DataPolicy>, id: nat, res: string)
    requires KeyedById(ps) && id in ps
    ensures StoredIn(parse, ps - {id}, res) == StoredIn(parse, ps, res) - {ToStored(parse, ps[id])}
    ensures res == ps[id].resource <==> ToStored(parse, ps[id]) in StoredIn(parse, ps, res)
  {
    forall k | k in ps && ps[k].resource == res && k != id
      ensures ToStored(parse, ps[k]) in StoredIn(parse, ps - {id}, res)
    {
      assert (ps - {id})[k] == ps[k];
    }
  }

  lemma MultisetMinus<T>(a: set<T>, x: T)
    ensures multiset(a - {x}) == multiset(a) - multiset{x}
  {
  }

  lemma DropInBucket(parse: Parser, m: Buckets, ps: map<nat, DataPolicy>, resource: string, id: nat, res: string)
    requires KeyedById(ps) && id in ps && ps[id].resource == resource
    requires multiset(BucketOf(m, res)) == ExpectedIn(parse, ps, res)
    requires multiset(DropFirst(BucketOf(m, resource), id)) == multiset(BucketOf(m, resource)) - multiset{ToStored(parse, ps[id])}
    ensures multiset(BucketOf(Drop(m, resource, id), res)) == ExpectedIn(parse, ps - {id}, res)
  {
    DropStored(parse, ps, id, res);
    BucketAfterDrop(m, resource, id, res);
    hide ToStored, StoredIn, DropFirst, BucketOf, Drop, KeyedById;
    if res == resource {
      MultisetMinus(StoredIn(parse, ps, res), ToStored(parse, ps[id]));
    } else {
      assert StoredIn(parse, ps, res) - {ToStored(parse, ps[id])} == StoredIn(parse, ps, res);
    }
  }

  lemma BucketAfterDrop(m: Buckets, resource: string, id: nat, res: string)
    ensures BucketOf(Drop(m, resource, id), res) == if res == resource then DropFirst(BucketOf(m, resource), id) else BucketOf(m, res)
  {
    hide DropFirst;
  }

  lemma DropMatches(parse: Parser, m: Buckets, ps: map<nat, DataPolicy>, resource: string, id: nat)
    requires StandsFor(parse, m, ps) && id in ps && ps[id].resource == resource
    ensures StandsFor(parse, Drop(m, resource, id), ps - {id})
  {
    var s, bucket := ToStored(parse, ps[id]), BucketOf(m, resource);
    InBucket(parse, m, ps, resource, s);
    forall x | x in bucket && x.id == s.id
      ensures x == s
    {
      InBucket(parse, m, ps, resource, x);
    }
    DropFirstMultiset(bucket, s);
    assert s.id == id;
    hide ToStored, StoredIn, DropFirst, ExpectedIn;
    forall res
      ensures multiset(BucketOf(Drop(m, resource, id), res)) == ExpectedIn(parse, ps - {id}, res)
    {
      DropInBucket(parse, m, ps, resource, id, res);
    }
  }

  /** A change that names its bucket keeps the table in step with the policies. */
  lemma ChangeKeepsMatch(parse: Parser, m: Buckets, ps: map<nat, DataPolicy>, c: DataPolicyChange)
    requires StandsFor(parse, m, ps) && NamesBucket(ps, c)
    ensures StandsFor(parse, Change(parse, m, c), ApplyChange(ps, c))
  {
    var id := c.policy.id;
    if c.op != ChangeAdd {
      if id in ps {
        DropMatches(parse, m, ps, c.policy.resource, id);
      } else {
        DropAbsent(parse, m, ps, c.policy.resource, id);
        assert ps - {id} == ps;
      }
    }
    if c.op == ChangeUpdate {
      PutMatches(parse, Drop(m, c.policy.resource, id), ps - {id}, c.policy);
      assert (ps - {id})[id := c.policy] == ps[id := c.policy];
    } else if c.op == ChangeAdd {
      PutMatches(parse, m, ps, c.policy);
    }
  }

  /** A removal or an update that names another bucket leaves the old entry behind, and so does adding a known id. */
  lemma WrongBucketBreaksMatch(parse: Parser, m: Buckets, ps: map<nat, DataPolicy>, c: DataPolicyChange)
    requires StandsFor(parse, m, ps) && !NamesBucket(ps, c)
    ensures !StandsFor(parse, Change(parse, m, c), ApplyChange(ps, c))
  {
    var id := c.policy.id;
    var stale, m' := ps[id], Change(parse, m, c);
    var s := ToStored(parse, stale);
    InBucket(parse, m, ps, stale.resource, s);
    if c.op != ChangeAdd {
      DropAbsent(parse, m, ps, c.policy.resource, id);
    }
    assert s in BucketOf(m', stale.resource);
    if StandsFor(parse, m', ApplyChange(ps, c)) {
      InBucket(parse, m', ApplyChange(ps, c), stale.resource, s);
      TwiceInBucket(parse, m, m', ps, c);
    }
  }

  /** Adding a known id to the bucket that holds it puts two entries with that id there. */
  lemma TwiceInBucket(parse: Parser, m: Buckets, m': Buckets, ps: map<nat, DataPolicy>, c: DataPolicyChange)
    requires StandsFor(parse, m, ps) && c.op == ChangeAdd && c.policy.id in ps && ps[c.policy.id].resource == c.policy.resource
    requires m' == Change(parse, m, c) && ToStored(parse, ps[c.policy.id]) == ToStored(parse, c.policy)
    ensures !StandsFor(parse, m', ps[c.policy.id := c.policy])
  {
    var s, res := ToStored(parse, c.policy), c.policy.resource;
    InBucket(parse, m, ps, res, s);
    assert multiset(BucketOf(m', res))[s] == multiset(BucketOf(m, res))[s] + 1;
    assert multiset(BucketOf(m, res))[s] > 0;
    assert ExpectedIn(parse, ps[c.policy.id := c.policy], res)[s] <= 1;
  }

  /** The exact condition under which an increment keeps the table equal to a rebuilt one. */
  lemma ChangeKeepsMatchIff(parse: Parser, m: Buckets, ps: map<nat, DataPolicy>, c: DataPolicyChange)
    requires StandsFor(parse, m, ps)
    ensures StandsFor(parse, Change(parse, m, c), ApplyChange(ps, c)) <==> NamesBucket(ps, c)
  {
    if NamesBucket(ps, c) {
      ChangeKeepsMatch(parse, m, ps, c);
    } else {
      WrongBucketBreaksMatch(parse, m, ps, c);
    }
  }

  // ---------------------------------------------------------------- over runs

  ghost predicate AllNameBuckets(ps: map<nat, DataPolicy>, cs: seq<DataPolicyChange>) {
    forall i :: 0 <= i < |cs| ==> NamesBucket(Replay(ps, cs[..i]), cs[i])
  }

  /** Incremental and rebuilt tables agree after any run of changes that name their buckets. */
  lemma {:induction false} IncrementsMatch(parse: Parser, m: Buckets, ps: map<nat, DataPolicy>, cs: seq<DataPolicyChange>)
    requires StandsFor(parse, m, ps) && AllNameBuckets(ps, cs)
    ensures StandsFor(parse, Changes(parse, m, cs), Replay(ps, cs))
  {
    if cs != [] {
      var rest := cs[..|cs| - 1];
      assert forall i :: 0 <= i < |rest| ==> rest[..i] == cs[..i] && rest[i] == cs[i];
      IncrementsMatch(parse, m, ps, rest);
      assert NamesBucket(Replay(ps, cs[..|cs| - 1]), cs[|cs| - 1]);
      ChangeKeepsMatch(parse, Changes(parse, m, rest), Replay(ps, rest), cs[|cs| - 1]);
    }
  }

  /** The policies of a snapshot by id. */
  function ById(policies: seq<DataPolicy>): (m: map<nat, DataPolicy>)
    ensures forall id :: id in m <==> exists p :: p in policies && p.id == id
  {
    if policies == [] then map[]
    else
      var last := policies[|policies| - 1];
      assert policies == policies[..|policies| - 1] + [last];
      ById(policies[..|policies| - 1])[last.id := last]
  }

  ghost predicate DistinctIds(policies: seq<DataPolicy>) {
    forall i, j :: 0 <= i < j < |policies| ==> policies[i].id != policies[j].id
  }

  lemma {:induction false} RebuiltMatches(parse: Parser, policies: seq<DataPolicy>)
    requires DistinctIds(policies)
    ensures StandsFor(parse, Rebuilt(parse, policies), ById(policies))
  {
    if policies == [] {
      forall res
        ensures ExpectedIn(parse, map[], res) == multiset{}
      {
        assert StoredIn(parse, map[], res) == {};
      }
    } else {
      var rest, last := policies[..|policies| - 1], policies[|policies| - 1];
      RebuiltMatches(parse, rest);
      forall p | p in rest
        ensures p.id != last.id
      {
        var i :| 0 <= i < |rest| && policies[i] == p;
      }
      PutMatches(parse, Rebuilt(parse, rest), ById(rest), last);
    }
  }

  /** Two tables that stand for the same policies agree bucket by bucket, and on which resources are configured. */
  lemma MatchesAgree(parse: Parser, a: Buckets, b: Buckets, ps: map<nat, DataPolicy>, res: string)
    requires StandsFor(parse, a, ps) && StandsFor(parse, b, ps)
    ensures multiset(BucketOf(a, res)) == multiset(BucketOf(b, res)) && (res in a <==> res in b)
  {
    assert multiset(BucketOf(a, res)) == ExpectedIn(parse, ps, res) == multiset(BucketOf(b, res));
    assert |BucketOf(a, res)| == |multiset(BucketOf(a, res))| == |BucketOf(b, res)|;
  }

  /**
   Starting from a snapshot, increments that name their buckets lead to the same buckets as rebuilding from the
   folded policies; a resource is configured in both or in neither.
   */
  lemma IncrementsEqualRebuilt(parse: Parser, start: seq<DataPolicy>, cs: seq<DataPolicyChange>, now: seq<DataPolicy>, res: string)
    requires DistinctIds(start) && DistinctIds(now) && AllNameBuckets(ById(start), cs) && ById(now) == Replay(ById(start), cs)
    ensures var a, b := Changes(parse, Rebuilt(parse, start), cs), Rebuilt(parse, now);
      multiset(BucketOf(a, res)) == multiset(BucketOf(b, res)) && (res in a <==> res in b)
  {
    RebuiltMatches(parse, start);
    RebuiltMatches(parse, now);
    IncrementsMatch(parse, Rebuilt(parse, start), ById(start), cs);
    MatchesAgree(parse, Changes(parse, Rebuilt(parse, start), cs), Rebuilt(parse, now), ById(now), res);
  }

  /** A removal as the control plane sends it names no resource: it leaves the table alone while the policy is gone. */
  lemma ControlPlaneRemovalIsLost(parse: Parser, m: Buckets, ps: map<nat, DataPolicy>, id: nat)
    requires StandsFor(parse, m, ps) && id in ps
    ensures ps[id].resource != "" <==> !StandsFor(parse, Change(parse, m, Removal(id)), ApplyChange(ps, Removal(id)))
    ensures ps[id].resource != "" ==> Change(parse, m, Removal(id)) == m
  {
    ChangeKeepsMatchIff(parse, m, ps, Removal(id));
    if ps[id].resource != "" {
      DropAbsent(parse, m, ps, "", id);
    }
  }

  // ---------------------------------------------------------------- the changes that writes record

  /** The policy is not removed from a named resource, and an update does not move it to another one. */
  predicate StaysInBucket(ps: map<nat, DataPolicy>, c: DataPolicyChange) {
    c.policy.id in ps ==>
      && (c.op == ChangeRemove ==> ps[c.policy.id].resource == "")
      && (c.op == ChangeUpdate ==> ps[c.policy.id].resource == c.policy.resource)
  }

  /** A change that says what it does names its bucket exactly when it neither removes from a named resource nor moves to another. */
  lemma FittingNamesBucketIff(ps: map<nat, DataPolicy>, c: DataPolicyChange)
    requires Fits(ps, c)
    ensures NamesBucket(ps, c) <==> StaysInBucket(ps, c)
  {
  }

  /** Recorded changes lead every table of the old policies to one of the new, if they stay in their buckets. */
  lemma RecordedChangesReachTables(parse: Parser, m: Buckets, ps: map<nat, DataPolicy>, cs: seq<DataPolicyChange>, data: map<nat, DataRow>)
    requires StandsFor(parse, m, ps) && Explains(ps, cs, data)
    ensures AllNameBuckets(ps, cs) <==> forall i | 0 <= i < |cs| :: StaysInBucket(Replay(ps, cs[..i]), cs[i])
    ensures AllNameBuckets(ps, cs) ==> StandsFor(parse, Changes(parse, m, cs), View(data))
  {
    forall i | 0 <= i < |cs|
      ensures NamesBucket(Replay(ps, cs[..i]), cs[i]) <==> StaysInBucket(Replay(ps, cs[..i]), cs[i])
    {
      FittingNamesBucketIff(Replay(ps, cs[..i]), cs[i]);
    }
    hide StandsFor, NamesBucket, StaysInBucket, Replay, Changes, View;
    if AllNameBuckets(ps, cs) {
      IncrementsMatch(parse, m, ps, cs);
    }
  }

  /** Neither the subject type nor the subject id holds a colon. */
  predicate PlainSubject(p: DataPolicy) {
    ':' !in p.subjectType && ':' !in p.subjectId
  }

  lemma UntilColon(a: string, b: string, x: string, y: string)
    requires ':' !in a && ':' !in b && a + ":" + x == b + ":" + y
    ensures a == b && x == y
  {
    var s := a + ":" + x;
    assert s[|a|] == ':' && s[|b|] == ':';
    assert forall i :: 0 <= i < |a| ==> s[i] == a[i];
    assert forall i :: 0 <= i < |b| ==> s[i] == b[i];
    assert |a| == |b|;
    assert a == s[..|a|] == b && x == s[|a| + 1..] == y;
  }

  /** Policies of plain subjects with one identity are about one resource. */
  lemma IdentityGivesResource(p: DataPolicy, q: DataPolicy)
    requires PlainSubject(p) && PlainSubject(q)
    requires Identity(p.subjectType, p.subjectId, p.resource) == Identity(q.subjectType, q.subjectId, q.resource)
    ensures p.resource == q.resource
  {
    var x, y := p.subjectId + ":" + p.resource, q.subjectId + ":" + q.resource;
    assert Identity(p.subjectType, p.subjectId, p.resource) == p.subjectType + ":" + x;
    assert Identity(q.subjectType, q.subjectId, q.resource) == q.subjectType + ":" + y;
    UntilColon(p.subjectType, q.subjectType, x, y);
    UntilColon(p.subjectId, q.subjectId, p.resource, q.resource);
  }

  lemma {:induction false} ReplayedArePlain(ps: map<nat, DataPolicy>, cs: seq<DataPolicyChange>)
    requires (forall id | id in ps :: PlainSubject(ps[id])) && forall c | c in cs :: PlainSubject(c.policy)
    ensures forall id | id in Replay(ps, cs) :: PlainSubject(Replay(ps, cs)[id])
  {
    if cs != [] {
      var rest := cs[..|cs| - 1];
      assert forall c | c in rest :: c in cs;
      ReplayedArePlain(ps, rest);
      assert cs[|cs| - 1] in cs;
    }
  }

  /** Updates that keep their identity never move a policy of a plain subject: only removals can miss their bucket. */
  lemma InPlaceChangesMissOnlyRemovals(ps: map<nat, DataPolicy>, cs: seq<DataPolicyChange>)
    requires AllFit(ps, cs) && InPlace(ps, cs)
    requires (forall id | id in ps :: PlainSubject(ps[id])) && forall c | c in cs :: PlainSubject(c.policy)
    ensures AllNameBuckets(ps, cs) <==>
      forall i | 0 <= i < |cs| && cs[i].op == ChangeRemove :: Replay(ps, cs[..i])[cs[i].policy.id].resource == ""
  {
    forall i | 0 <= i < |cs|
      ensures NamesBucket(Replay(ps, cs[..i]), cs[i]) <==>
        (cs[i].op == ChangeRemove ==> Replay(ps, cs[..i])[cs[i].policy.id].resource == "")
    {
      assert forall c | c in cs[..i] :: c in cs;
      assert cs[i] in cs;
      ReplayedArePlain(ps, cs[..i]);
      assert Fits(Replay(ps, cs[..i]), cs[i]) && KeepsIdentity(Replay(ps, cs[..i]), cs[i]);
      if cs[i].op == ChangeUpdate {
        IdentityGivesResource(cs[i].policy, Replay(ps, cs[..i])[cs[i].policy.id]);
      }
    }
  }
}
