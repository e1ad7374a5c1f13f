/** Serialised commits of assistant-history projections: the committer's tables and the commit protocol. */
module HistoryCommitter {
  import opened Options
  import opened OrderedDicts
  import opened PyValues
  import opened HistoryMerge
  import Freezing

  const HISTORY_RECEIPT_LIMIT := 256
  const LATEST_SEQUENCE_LIMIT := 4096

  type TaskId = nat

  /** `sequence` 0 means none; the snapshot and base are frozen values. */
  datatype Pending = Pending(
    conversation: string,
    snapshot: seq<Value>,
    checkpoint: Option<string>,
    sequence: int,
    base: Option<seq<Value>>,
    unitStart: Option<int>,
    expectedTotal: Option<int>)

  /** The committer's tables. `lockRefs` lists which commits still hold a reference to which
      conversation's lock: the weak dictionary keeps a lock exactly while such a reference exists. */
  datatype Books = Books(
    lockRefs: set<(string, TaskId)>,
    latest: ODict<string, int>,
    receipts: ODict<string, Summary>)

  predicate LockAlive(lockRefs: set<(string, TaskId)>, conversation: string) {
    exists ref | ref in lockRefs :: ref.0 == conversation
  }

  /** Drop the first `overflow` counters whose conversation has no live lock. */
  function Prune(latest: ODict<string, int>, overflow: int, lockRefs: set<(string, TaskId)>): ODict<string, int> {
    if latest == [] || overflow <= 0 then latest
    else if LockAlive(lockRefs, latest[0].0) then [latest[0]] + Prune(latest[1..], overflow, lockRefs)
    else Prune(latest[1..], overflow - 1, lockRefs)
  }

  function Opened(b: Books, conversation: string, task: TaskId): Books {
    var refs := b.lockRefs + {(conversation, task)};
    Books(refs, Prune(b.latest, |b.latest| - LATEST_SEQUENCE_LIMIT, refs), b.receipts)
  }

  function Closed(b: Books, conversation: string, task: TaskId): Books {
    b.(lockRefs := b.lockRefs - {(conversation, task)})
  }

  predicate IsStale(latest: ODict<string, int>, p: Pending) {
    p.sequence != 0 && p.sequence < Get(latest, p.conversation).GetOr(0)
  }

  function DropOldest<V>(d: ODict<string, V>, limit: nat): ODict<string, V> {
    if |d| <= limit then d else DropOldest(d[1..], limit)
  }

  function Recorded(b: Books, p: Pending, history: History): Books {
    Books(
      b.lockRefs,
      if p.sequence != 0 then PutLast(b.latest, p.conversation, p.sequence) else b.latest,
      DropOldest(PutLast(b.receipts, p.conversation, Summarize(history)), HISTORY_RECEIPT_LIMIT))
  }

  class AssistantHistoryCommitter {
    var lockRefs: set<(string, TaskId)>
    var latest: ODict<string, int>
    var receipts: ODict<string, Summary>
    var sequence: int

    ghost function Tables(): Books
      reads this
    {
      Books(lockRefs, latest, receipts)
    }

    ghost predicate Valid()
      reads this
    {
      Distinct(latest) && Distinct(receipts)
    }

    constructor ()
      ensures Valid() && Tables() == Books({}, [], []) && sequence == 0
    {
      lockRefs, latest, receipts, sequence := {}, [], [], 0;
    }

    method NextSequence() returns (token: int)
      modifies this`sequence
      ensures token == sequence == old(sequence) + 1
    {
      sequence := sequence + 1;
      token := sequence;
    }

    method PruneLatestSequences()
      requires Valid()
      modifies this`latest
      ensures Valid()
      ensures latest == Prune(old(latest), |old(latest)| - LATEST_SEQUENCE_LIMIT, lockRefs)
    {
      var overflow := |latest| - LATEST_SEQUENCE_LIMIT;
      if overflow <= 0 {
        return;
      }
      var rest := latest;
      ghost var kept := [];
      while rest != [] && overflow > 0
        invariant latest == kept + rest && Distinct(latest)
        invariant Prune(old(latest), |old(latest)| - LATEST_SEQUENCE_LIMIT, lockRefs)
                  == kept + Prune(rest, overflow, lockRefs)
        decreases |rest|
      {
        PruneUnrolls(kept, rest, overflow, lockRefs);
        if LockAlive(lockRefs, rest[0].0) {
          kept := kept + [rest[0]];
        } else {
          latest := Remove(latest, rest[0].0);
          overflow := overflow - 1;
        }
        rest := rest[1..];
      }
    }

    /** Up to the point where the commit waits for the conversation's lock. */
    method Open(conversation: string, task: TaskId)
      requires Valid()
      modifies this`lockRefs, this`latest
      ensures Valid() && Tables() == Opened(old(Tables()), conversation, task)
    {
      lockRefs := lockRefs + {(conversation, task)};
      PruneLatestSequences();
    }

    /** The commit returns or raises: its frame drops the lock. */
    method Close(conversation: string, task: TaskId)
      requires Valid()
      modifies this`lockRefs
      ensures Valid() && Tables() == Closed(old(Tables()), conversation, task)
    {
      lockRefs := lockRefs - {(conversation, task)};
    }

    method RememberStructureReceipt(conversation: string, history: History)
      requires Valid()
      modifies this`receipts
      ensures Valid()
      ensures receipts
              == DropOldest(PutLast(old(receipts), conversation, Summarize(history)), HISTORY_RECEIPT_LIMIT)
    {
      var summary := SummarizeHistory(history);
      PutLastFacts(receipts, conversation, summary);
      receipts := PutLast(receipts, conversation, summary);
      ghost var full := receipts;
      while |receipts| > HISTORY_RECEIPT_LIMIT
        invariant Distinct(receipts)
        invariant DropOldest(full, HISTORY_RECEIPT_LIMIT) == DropOldest(receipts, HISTORY_RECEIPT_LIMIT)
      {
        receipts := receipts[1..];
      }
    }

    /** What an accepted commit records after its write. */
    method Record(p: Pending, history: History)
      requires Valid()
      modifies this`latest, this`receipts
      ensures Valid() && Tables() == Recorded(old(Tables()), p, history)
    {
      if p.sequence != 0 {
        PutLastFacts(latest, p.conversation, p.sequence);
        latest := PutLast(latest, p.conversation, p.sequence);
      }
      RememberStructureReceipt(p.conversation, history);
    }
  }

  lemma PruneUnrolls(kept: ODict<string, int>, rest: ODict<string, int>, overflow: int,
                     lockRefs: set<(string, TaskId)>)
    requires rest != [] && overflow > 0 && Distinct(kept + rest)
    ensures if LockAlive(lockRefs, rest[0].0)
            then && kept + rest == kept + [rest[0]] + rest[1..]
                 && kept + Prune(rest, overflow, lockRefs)
                    == kept + [rest[0]] + Prune(rest[1..], overflow, lockRefs)
            else && Remove(kept + rest, rest[0].0) == kept + rest[1..]
                 && Distinct(kept + rest[1..])
                 && Prune(rest, overflow, lockRefs) == Prune(rest[1..], overflow - 1, lockRefs)
  {
    assert kept + rest == kept + [rest[0]] + rest[1..];
    RemoveMiddle(kept, rest[0], rest[1..]);
    RemoveKeys(kept + rest, rest[0].0);
  }

  lemma {:induction false} RemoveMiddle<V>(before: ODict<string, V>, item: (string, V), after: ODict<string, V>)
    requires Distinct(before + [item] + after)
    ensures Remove(before + [item] + after, item.0) == before + after
  {
    var d := before + [item] + after;
    if before == [] {
      assert d[1..] == after;
    } else {
      assert d[1..] == before[1..] + [item] + after;
      GetOfItem(d[1..], |before| - 1);
      RemoveMiddle(before[1..], item, after);
    }
  }

  function IdleCount(latest: ODict<string, int>, lockRefs: set<(string, TaskId)>): nat {
    if latest == [] then 0
    else (if LockAlive(lockRefs, latest[0].0) then 0 else 1) + IdleCount(latest[1..], lockRefs)
  }

  /** Pruning keeps every counter whose conversation has a commit in flight, changes no value, and ends
      within the limit or with only in-flight conversations left. */
  lemma {:induction false} PruneKeepsInFlight(latest: ODict<string, int>, overflow: int,
                                              lockRefs: set<(string, TaskId)>)
    requires Distinct(latest)
    ensures var r := Prune(latest, overflow, lockRefs);
            && Distinct(r)
            && (forall c: string :: LockAlive(lockRefs, c) ==> Get(r, c) == Get(latest, c))
            && (forall c: string :: Get(r, c) == Get(latest, c) || Get(r, c).None?)
            && (overflow >= 0 ==> |r| <= |latest| - overflow || IdleCount(r, lockRefs) == 0)
  {
    if latest != [] && overflow > 0 {
      var rest := latest[1..];
      var next := if LockAlive(lockRefs, latest[0].0) then overflow else overflow - 1;
      PruneKeepsInFlight(rest, next, lockRefs);
    }
  }

  lemma {:induction false} DropOldestFacts<V>(d: ODict<string, V>, limit: nat)
    requires Distinct(d)
    ensures Distinct(DropOldest(d, limit)) && |DropOldest(d, limit)| <= limit
    ensures |d| <= limit ==> DropOldest(d, limit) == d
    ensures forall c: string :: Get(DropOldest(d, limit), c) == Get(d, c) || Get(DropOldest(d, limit), c).None?
  {
    if |d| > limit {
      DropOldestFacts(d[1..], limit);
    }
  }
}
