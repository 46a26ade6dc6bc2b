/** The outbox relay: publishes committed deltas in id order, at least once, and marks them afterwards. */
module Relay {

  /** An outbox row; a row whose blob does not decode is skipped and never marked. */
  datatype Row = Row(app: nat, version: nat, decodable: bool, marked: bool)

  datatype Publication = Publication(app: nat, version: nat)

  const BATCH := 100

  predicate PendingAt(rows: map<nat, Row>, id: nat) {
    id in rows && !rows[id].marked
  }

  /** The unmarked rows with ids below `n`, by ascending id. */
  function Pending(rows: map<nat, Row>, n: nat): (ids: seq<nat>)
    ensures forall id: nat :: id in ids <==> id < n && PendingAt(rows, id)
    ensures forall i, j :: 0 <= i < j < |ids| ==> ids[i] < ids[j]
    ensures forall i :: 0 <= i < |ids| ==> ids[i] < n
  {
    if n == 0 then [] else Pending(rows, n - 1) + if PendingAt(rows, n - 1) then [n - 1] else []
  }

  function Batch(rows: map<nat, Row>, n: nat): (ids: seq<nat>)
    ensures ids <= Pending(rows, n) && |ids| <= 100
    ensures forall i :: 0 <= i < |ids| ==> ids[i] < n && PendingAt(rows, ids[i])
    ensures forall i, j :: 0 <= i < j < |ids| ==> ids[i] < ids[j]
    ensures forall id: nat :: PendingAt(rows, id) && id < n && id !in ids ==> |ids| == 100 && forall b :: b in ids ==> b < id
  {
    var all := Pending(rows, n);
    assert forall i :: 0 <= i < |all| ==> all[i] in all;
    if |all| <= BATCH then all else all[..BATCH]
  }

  function PublicationOf(row: Row): Publication {
    Publication(row.app, row.version)
  }

  /** One write of an app at a time: ids and versions of an app grow together. */
  ghost predicate AppsInOrder(rows: map<nat, Row>) {
    forall a, b | a in rows && b in rows && a < b && rows[a].app == rows[b].app :: rows[a].version < rows[b].version
  }

  /** Everything of the app that came before this row, and decodes, is in the log. */
  ghost predicate PredecessorsIn(rows: map<nat, Row>, id: nat, log: seq<Publication>)
    requires id in rows
  {
    forall p | p in rows && p < id && rows[p].app == rows[id].app && rows[p].decodable :: PublicationOf(rows[p]) in log
  }

  ghost predicate InTurn(rows: map<nat, Row>, log: seq<Publication>, i: nat)
    requires i < |log|
  {
    exists id :: id in rows && rows[id].decodable && PublicationOf(rows[id]) == log[i] && PredecessorsIn(rows, id, log[..i])
  }

  /** Marked rows were published, and every publication came in its app's turn. */
  ghost predicate Invariant(rows: map<nat, Row>, n: nat, log: seq<Publication>) {
    && (forall id | id in rows :: id < n)
    && AppsInOrder(rows)
    && (forall id | id in rows && rows[id].marked :: rows[id].decodable && PublicationOf(rows[id]) in log)
    && forall i :: 0 <= i < |log| ==> InTurn(rows, log, i)
  }

  ghost predicate SameButMarks(rows: map<nat, Row>, rows': map<nat, Row>) {
    rows.Keys == rows'.Keys && forall id | id in rows :: rows'[id] == rows[id].(marked := rows'[id].marked)
  }

  lemma MarksDoNotMatter(rows: map<nat, Row>, rows': map<nat, Row>, log: seq<Publication>, i: nat)
    requires SameButMarks(rows, rows') && i < |log| && InTurn(rows, log, i)
    ensures InTurn(rows', log, i)
  {
    var id :| id in rows && rows[id].decodable && PublicationOf(rows[id]) == log[i] && PredecessorsIn(rows, id, log[..i]);
    assert PredecessorsIn(rows', id, log[..i]);
  }

  lemma LongerLog(rows: map<nat, Row>, log: seq<Publication>, p: Publication, i: nat)
    requires i < |log| && InTurn(rows, log, i)
    ensures InTurn(rows, log + [p], i)
  {
    assert (log + [p])[..i] == log[..i];
  }

  /** Publishing a row whose predecessors are in the log keeps the order. */
  lemma PublishKeeps(rows: map<nat, Row>, n: nat, log: seq<Publication>, id: nat)
    requires Invariant(rows, n, log) && id in rows && rows[id].decodable && PredecessorsIn(rows, id, log)
    ensures Invariant(rows, n, log + [PublicationOf(rows[id])])
  {
    var log' := log + [PublicationOf(rows[id])];
    forall i | 0 <= i < |log'|
      ensures InTurn(rows, log', i)
    {
      if i < |log| {
        LongerLog(rows, log, PublicationOf(rows[id]), i);
      } else {
        assert log'[..i] == log;
      }
    }
  }

  lemma MarkKeeps(rows: map<nat, Row>, n: nat, log: seq<Publication>, id: nat)
    requires Invariant(rows, n, log) && id in rows && rows[id].decodable && PublicationOf(rows[id]) in log
    ensures Invariant(rows[id := rows[id].(marked := true)], n, log)
  {
    var rows' := rows[id := rows[id].(marked := true)];
    forall i | 0 <= i < |log|
      ensures InTurn(rows', log, i)
    {
      MarksDoNotMatter(rows, rows', log, i);
    }
  }

  ghost predicate MarksStay(start: map<nat, Row>, rows: map<nat, Row>) {
    forall id | id in rows && id in start && start[id].marked :: rows[id].marked
  }

  /** Only rows of the batch that decode have changed. */
  ghost predicate OnlyBatch(start: map<nat, Row>, rows: map<nat, Row>, batch: seq<nat>) {
    rows.Keys == start.Keys && forall id | id in rows :: rows[id] == start[id] || (id in batch && start[id].decodable)
  }

  ghost predicate Flawless(env: nat -> (bool, bool)) {
    forall i :: env(i) == (true, true)
  }

  /** Exactly the decodable rows of the batch are marked, and any of them counts as progress. */
  ghost predicate AllDrained(start: map<nat, Row>, rows: map<nat, Row>, batch: seq<nat>, published: nat) {
    && (forall id | id in batch :: id in rows && rows[id].marked == rows[id].decodable)
    && (published > 0 <==> exists id :: id in batch && id in start && start[id].decodable)
  }

  /** Pending rows by ascending id. */
  ghost predicate IsBatch(rows: map<nat, Row>, batch: seq<nat>) {
    && (forall id | id in batch :: PendingAt(rows, id))
    && forall j, k :: 0 <= j < k < |batch| ==> batch[j] < batch[k]
  }

  /** What publishing these rows sends: one publication for each that decodes. */
  function Publications(rows: map<nat, Row>, ids: seq<nat>): seq<Publication> {
    if ids == [] then []
    else
      var id := ids[|ids| - 1];
      Publications(rows, ids[..|ids| - 1])
        + if id in rows && rows[id].decodable then [Publication(rows[id].app, rows[id].version)] else []
  }

  /** The rows once those of `ids` that decode are marked. */
  function Marked(rows: map<nat, Row>, ids: seq<nat>): map<nat, Row> {
    map id | id in rows :: Row(rows[id].app, rows[id].version, rows[id].decodable, rows[id].marked || (id in ids && rows[id].decodable))
  }

  /** A drain is about to handle row `i` of its batch. */
  ghost predicate HasCome(rows: map<nat, Row>, log: seq<Publication>, batch: seq<nat>, i: nat,
                          rows': map<nat, Row>, log': seq<Publication>, published: nat)
    requires i <= |batch|
  {
    && rows' == Marked(rows, batch[..i]) && log' == log + Publications(rows, batch[..i])
    && published == |Publications(rows, batch[..i])|
  }

  /**
   A drain that stopped at row `done` has published and marked the rows before it that decode. It stopped there because
   publishing the row failed, which is no error, or because marking it failed after it was published, which is one.
   */
  ghost predicate CameTo(rows: map<nat, Row>, log: seq<Publication>, batch: seq<nat>, done: nat, env: nat -> (bool, bool),
                         rows': map<nat, Row>, log': seq<Publication>, published: nat, ok: bool)
    requires done <= |batch|
  {
    && rows' == Marked(rows, batch[..done]) && published == |Publications(rows, batch[..done])|
    && (done < |batch| ==> batch[done] in rows && rows[batch[done]].decodable && !(env(done).0 && env(done).1))
    && log' == log + Publications(rows, if done < |batch| && env(done).0 then batch[..done + 1] else batch[..done])
    && (ok <==> done == |batch| || !env(done).0)
  }

  lemma ComesOn(rows: map<nat, Row>, log: seq<Publication>, batch: seq<nat>, i: nat, env: nat -> (bool, bool),
                rows': map<nat, Row>, log': seq<Publication>, published: nat)
    requires i < |batch| && HasCome(rows, log, batch, i, rows', log', published) && IsBatch(rows, batch)
    ensures batch[i] in rows'
    ensures !rows'[batch[i]].decodable ==> HasCome(rows, log, batch, i + 1, rows', log', published)
    ensures rows'[batch[i]].decodable ==>
      var after := log' + [PublicationOf(rows'[batch[i]])];
      var marked := rows'[batch[i] := rows'[batch[i]].(marked := true)];
      && (env(i).0 && env(i).1 ==> HasCome(rows, log, batch, i + 1, marked, after, published + 1))
      && (!(env(i).0 && env(i).1) ==>
            CameTo(rows, log, batch, i, env, rows', if env(i).0 then after else log', published, !env(i).0))
  {
    assert batch[..i + 1][..i] == batch[..i] && batch[..i + 1] == batch[..i] + [batch[i]];
    assert PendingAt(rows, batch[i]);
    assert batch[i] !in batch[..i];
    if rows'[batch[i]].decodable {
      assert Marked(rows, batch[..i + 1]) == rows'[batch[i] := rows'[batch[i]].(marked := true)];
    } else {
      assert Marked(rows, batch[..i + 1]) == rows';
    }
  }

  lemma {:induction false} AnyPublished(rows: map<nat, Row>, ids: seq<nat>)
    ensures |Publications(rows, ids)| > 0 <==> exists id :: id in ids && id in rows && rows[id].decodable
  {
    if ids != [] {
      var rest := ids[..|ids| - 1];
      AnyPublished(rows, rest);
      assert ids == rest + [ids[|ids| - 1]];
    }
  }

  lemma PublishedPart(rows: map<nat, Row>, ids: seq<nat>)
    requires ids != []
    ensures |Publications(rows, ids[..|ids| - 1])| <= |Publications(rows, ids)| <= |Publications(rows, ids[..|ids| - 1])| + 1
  {
  }

  lemma ComesToTheEnd(rows: map<nat, Row>, log: seq<Publication>, batch: seq<nat>, env: nat -> (bool, bool),
                      rows': map<nat, Row>, log': seq<Publication>, published: nat)
    requires HasCome(rows, log, batch, |batch|, rows', log', published)
    ensures CameTo(rows, log, batch, |batch|, env, rows', log', published, true)
  {
  }

  /** What a drain changes, however far it came. */
  lemma DrainMeans(rows: map<nat, Row>, log: seq<Publication>, batch: seq<nat>, done: nat, env: nat -> (bool, bool),
                   rows': map<nat, Row>, log': seq<Publication>, published: nat, ok: bool)
    requires done <= |batch| && CameTo(rows, log, batch, done, env, rows', log', published, ok) && IsBatch(rows, batch)
    ensures log <= log' && published <= |log'| - |log| <= published + 1
    ensures SameButMarks(rows, rows') && MarksStay(rows, rows') && OnlyBatch(rows, rows', batch)
    ensures Flawless(env) ==> ok && AllDrained(rows, rows', batch, published)
  {
    if done < |batch| {
      assert batch[..done + 1][..done] == batch[..done];
      PublishedPart(rows, batch[..done + 1]);
    }
    if Flawless(env) {
      assert done == |batch|;
      assert batch[..done] == batch;
      AnyPublished(rows, batch);
    }
  }

  class Outbox {
    var rows: map<nat, Row>
    var n: nat
    /** Everything that ever reached the publisher, in order. */
    var log: seq<Publication>

    constructor ()
      ensures Valid() && rows == map[] && log == []
    {
      rows, n, log := map[], 0, [];
    }

    ghost predicate Valid()
      reads this
    {
      Invariant(rows, n, log)
    }

    /** A committed write adds a row; rows of other apps may still appear below it. */
    method Commit(id: nat, app: nat, version: nat, decodable: bool)
      requires Valid() && id !in rows
      requires forall o | o in rows && rows[o].app == app :: o < id && rows[o].version < version
      modifies this
      ensures Valid() && rows == old(rows)[id := Row(app, version, decodable, false)] && log == old(log)
    {
      ghost var before := rows;
      rows := rows[id := Row(app, version, decodable, false)];
      n := if id < n then n else id + 1;
      forall i | 0 <= i < |log|
        ensures InTurn(rows, log, i)
      {
        NewRowKeepsTurn(before, rows, id, log, i);
      }
    }

    /**
     Publishes one batch in id order. A failed publication stops the batch, and so does a failed mark;
     `env(i)` says how publishing and marking row i of the batch go.
     */
    method DrainOnce(env: nat -> (bool, bool)) returns (published: nat, ok: bool, ghost done: nat)
      requires Valid()
      modifies this
      ensures Valid() && SameButMarks(old(rows), rows) && n == old(n) && old(log) <= log
      ensures done <= |Batch(old(rows), old(n))|
        && CameTo(old(rows), old(log), Batch(old(rows), old(n)), done, env, rows, log, published, ok)
      ensures MarksStay(old(rows), rows) && OnlyBatch(old(rows), rows, Batch(old(rows), old(n)))
      ensures published <= |log| - |old(log)| <= published + 1
      ensures Flawless(env) ==> ok && AllDrained(old(rows), rows, Batch(old(rows), old(n)), published)
    {
      var batch := Batch(rows, n);
      ghost var start, first := rows, log;
      assert IsBatch(start, batch);
      published, ok, done := 0, true, |batch|;
      assert HasCome(start, first, batch, 0, rows, log, published);
      hide Invariant, Pending, Batch, SameButMarks, AllDrained, MarksStay, OnlyBatch, IsBatch, HasCome, CameTo, PredecessorsIn;
      for i := 0 to |batch|
        invariant Valid() && n == old(n) && ok && done == |batch| && HasCome(start, first, batch, i, rows, log, published)
      {
        var id := batch[i];
        ComesOn(start, first, batch, i, env, rows, log, published);
        if !rows[id].decodable {
          continue;
        }
        BatchInTurn(start, first, rows, n, log, batch, i, published);
        var sent, marked := PublishRow(id, env(i));
        if !sent || !marked {
          ok, done := !sent, i;
          DrainMeans(start, first, batch, done, env, rows, log, published, ok);
          return;
        }
        published := published + 1;
      }
      ComesToTheEnd(start, first, batch, env, rows, log, published);
      DrainMeans(start, first, batch, done, env, rows, log, published, ok);
    }

    /** Publishes one row and then marks it; either can fail. */
    method PublishRow(id: nat, env: (bool, bool)) returns (sent: bool, marked: bool)
      requires Valid() && id in rows && rows[id].decodable && PredecessorsIn(rows, id, log)
      modifies this
      ensures Valid() && n == old(n) && sent == env.0 && marked == (env.0 && env.1)
      ensures log == if sent then old(log) + [PublicationOf(old(rows)[id])] else old(log)
      ensures rows == if marked then old(rows)[id := old(rows)[id].(marked := true)] else old(rows)
    {
      sent, marked := false, false;
      if !env.0 {
        return;
      }
      PublishKeeps(rows, n, log, id);
      log := log + [PublicationOf(rows[id])];
      sent := true;
      if env.1 {
        MarkKeeps(rows, n, log, id);
        rows := rows[id := rows[id].(marked := true)];
        marked := true;
      }
    }
  }

  lemma NewRowKeepsTurn(rows: map<nat, Row>, rows': map<nat, Row>, id: nat, log: seq<Publication>, i: nat)
    requires id !in rows && id in rows' && rows' == rows[id := rows'[id]] && i < |log| && InTurn(rows, log, i)
    requires forall o | o in rows && rows[o].app == rows'[id].app :: o < id
    ensures InTurn(rows', log, i)
  {
    var o :| o in rows && rows[o].decodable && PublicationOf(rows[o]) == log[i] && PredecessorsIn(rows, o, log[..i]);
    assert PredecessorsIn(rows', o, log[..i]);
  }

  /** When the batch has come to a row, all rows of its app before it are marked, hence published. */
  lemma BatchInTurn(start: map<nat, Row>, first: seq<Publication>, rows: map<nat, Row>, n: nat, log: seq<Publication>,
                    batch: seq<nat>, i: nat, published: nat)
    requires batch == Batch(start, n) && i < |batch| && HasCome(start, first, batch, i, rows, log, published) && Invariant(rows, n, log)
    requires batch[i] in rows
    ensures PredecessorsIn(rows, batch[i], log)
  {
    assert batch[i] in batch;
    forall p | p in rows && p < batch[i] && rows[p].app == rows[batch[i]].app && rows[p].decodable
      ensures PublicationOf(rows[p]) in log
    {
      if !start[p].marked {
        assert PendingAt(start, p) && p < n;
        assert batch[i] in batch;
        assert p in batch;
        var j :| 0 <= j < |batch| && batch[j] == p;
        assert Pending(start, n)[i] == batch[i] && Pending(start, n)[j] == batch[j];
        assert j < i;
      }
    }
  }

  // ---------------------------------------------------------------- what the order means

  /** What each publication is for its app: a repetition, or the first decodable row that has not been published yet. */
  lemma PublishedInOrder(rows: map<nat, Row>, n: nat, log: seq<Publication>, i: nat, id: nat)
    requires Invariant(rows, n, log) && i < |log| && id in rows && rows[id].decodable && rows[id].app == log[i].app
    ensures rows[id].version < log[i].version ==> PublicationOf(rows[id]) in log[..i]
    ensures log[i] !in log[..i] && PublicationOf(rows[id]) !in log[..i] ==> log[i].version <= rows[id].version
  {
    assert InTurn(rows, log, i);
    var o :| o in rows && rows[o].decodable && PublicationOf(rows[o]) == log[i] && PredecessorsIn(rows, o, log[..i]);
    if rows[id].version < log[i].version {
      assert id < o;
    }
  }

  /** A batch in which no row decodes blocks the relay: draining it changes nothing, and the next batch is the same. */
  lemma UndecodableBatchBlocks(rows: map<nat, Row>, n: nat, rows': map<nat, Row>)
    requires OnlyBatch(rows, rows', Batch(rows, n)) && forall id | id in Batch(rows, n) && id in rows :: !rows[id].decodable
    ensures rows' == rows && Batch(rows', n) == Batch(rows, n)
  {
    forall id | id in rows
      ensures rows'[id] == rows[id]
    {
    }
  }
}
