/** Group-chat awareness: the message records of each group, injected into the next model request. */
module GroupContext {
  import opened Options

  /** What `handle_message` leaves on its event for `on_req_llm`. */
  datatype Extras = Extras(recordId: Option<string>, rawIdx: Option<int>)

  /** The two deques of one group. */
  datatype Group = Group(records: seq<string>, ids: seq<string>)

  const EMPTY := Group([], [])

  /** Where a Python slice bound falls in a list of length `n`. */
  function Bound(n: nat, p: int): nat {
    if p >= 0 then (if p < n then p else n)
    else if n + p > 0 then n + p else 0
  }

  function Before<T>(s: seq<T>, p: int): seq<T> {
    s[..Bound(|s|, p)]
  }

  function From<T>(s: seq<T>, p: int): seq<T> {
    s[Bound(|s|, p)..]
  }

  function Last<T>(s: seq<T>, n: nat): seq<T> {
    if |s| > n then s[|s| - n..] else s
  }

  /** `_trim_left` on one deque when `k` elements have to go. */
  function DropFirst<T>(s: seq<T>, k: nat): seq<T> {
    if k < |s| then s[k..] else []
  }

  function Excess(records: seq<string>, maxRecords: nat): nat {
    if |records| > maxRecords then |records| - maxRecords else 0
  }

  method TrimLeft(records: seq<string>, maxRecords: nat, recordIds: seq<string>) returns (r: seq<string>, i: seq<string>)
    ensures r == Last(records, maxRecords)
    ensures i == DropFirst(recordIds, Excess(records, maxRecords))
  {
    r, i := records, recordIds;
    ghost var k := 0;
    while |r| > maxRecords
      invariant k <= |records| && r == records[k..] && i == DropFirst(recordIds, k)
      invariant |records| <= maxRecords ==> k == 0
      invariant |records| > maxRecords ==> |r| >= maxRecords
    {
      r := r[1..];
      if i != [] {
        i := i[1..];
      }
      k := k + 1;
    }
  }

  function Received(g: Group, text: string, id: string, maxCount: nat): Group {
    Group(Last(g.records + [text], maxCount), DropFirst(g.ids + [id], Excess(g.records + [text], maxCount)))
  }

  predicate NoExtras(x: Extras) {
    x.recordId.None? && (x.rawIdx.None? || x.rawIdx.value < 0)
  }

  function IndexOf(ids: seq<string>, id: string): nat
    requires id in ids
    ensures IndexOf(ids, id) < |ids| && ids[IndexOf(ids, id)] == id
  {
    if ids[0] == id then 0 else 1 + IndexOf(ids[1..], id)
  }

  /** The position the request stands for: the record's own, or else the one remembered from its arrival. */
  function PromptIdx(g: Group, x: Extras): int {
    if x.recordId.Some? && x.recordId.value in g.ids then IndexOf(g.ids, x.recordId.value) else x.rawIdx.GetOr(-1)
  }

  predicate Skipped(g: Group, x: Extras) {
    NoExtras(x) || g.records == [] || PromptIdx(g, x) >= |g.records|
  }

  function Injected(g: Group, x: Extras): seq<string> {
    if Skipped(g, x) then [] else Before(g.records, PromptIdx(g, x))
  }

  function Consumed(g: Group, x: Extras): Group {
    if Skipped(g, x) then g
    else Group(From(g.records, PromptIdx(g, x) + 1), From(g.ids, PromptIdx(g, x) + 1))
  }

  class GroupChatContext {
    var rawRecords: map<string, seq<string>>
    var recordIds: map<string, seq<string>>

    function View(umo: string): Group
      reads this
    {
      Group(if umo in rawRecords then rawRecords[umo] else [], if umo in recordIds then recordIds[umo] else [])
    }

    constructor ()
      ensures forall u :: View(u) == EMPTY
    {
      rawRecords, recordIds := map[], map[];
    }

    method HandleMessage(umo: string, text: string, maxCount: nat, id: string) returns (x: Extras)
      modifies this
      ensures View(umo) == Received(old(View(umo)), text, id, maxCount)
      ensures x == Extras(Some(id), Some(|View(umo).records| - 1))
      ensures forall u | u != umo :: View(u) == old(View(u))
    {
      var records := if umo in rawRecords then rawRecords[umo] else [];
      var ids := if umo in recordIds then recordIds[umo] else [];
      records := records + [text];
      ids := ids + [id];
      records, ids := TrimLeft(records, maxCount, ids);
      rawRecords := rawRecords[umo := records];
      recordIds := recordIds[umo := ids];
      x := Extras(Some(id), Some(|records| - 1));
    }

    method OnReqLlm(umo: string, x: Extras) returns (injected: seq<string>)
      modifies this
      ensures injected == Injected(old(View(umo)), x)
      ensures View(umo) == Consumed(old(View(umo)), x)
      ensures forall u | u != umo :: View(u) == old(View(u))
    {
      if x.recordId.None? && (x.rawIdx.None? || x.rawIdx.value < 0) {
        return [];
      }
      if umo !in rawRecords || rawRecords[umo] == [] {
        return [];
      }
      var rawList := rawRecords[umo];
      var idList := if umo in recordIds then recordIds[umo] else [];
      var promptIdx := x.rawIdx.GetOr(-1);
      if x.recordId.Some? && x.recordId.value in idList {
        promptIdx := IndexOf(idList, x.recordId.value);
      }
      if promptIdx >= |rawList| {
        return [];
      }
      injected := Before(rawList, promptIdx);
      rawRecords := rawRecords[umo := From(rawList, promptIdx + 1)];
      if idList != [] {
        recordIds := recordIds[umo := From(idList, promptIdx + 1)];
      }
    }

    method RemoveSession(umo: string) returns (count: nat)
      modifies this
      ensures count == |old(View(umo)).records| && View(umo) == EMPTY
      ensures forall u | u != umo :: View(u) == old(View(u))
    {
      count := if umo in rawRecords then |rawRecords[umo]| else 0;
      rawRecords := rawRecords - {umo};
      recordIds := recordIds - {umo};
    }
  }
}
