/** Waiting for submissions and choosing among them (WaitForReceipts, receiptListReady and selectReceipts
    in internal/collector/collector.go). */
module Waiting {
  import opened Prelude
  import opened Text
  import opened Model
  import Chunks

  const MIN_POLL := 1_000_000_000
  const MAX_POLL := 300_000_000_000
  const MAX_WAIT := 86_400_000_000_000

  datatype WaitError = BadTimeout | BadUploadID | BadInterval | ListFailed | TimedOut

  datatype SelectError = InvalidID(id: string) | NotCompleted(id: string)

  // ---------- readiness ----------

  ghost predicate Listed(receipts: seq<Receipt>, id: string) {
    exists i :: 0 <= i < |receipts| && receipts[i].uploadID == id
  }

  predicate Matches(r: Receipt, includeAcknowledged: bool) { includeAcknowledged || !r.acknowledged }

  ghost predicate Ready(receipts: seq<Receipt>, ids: seq<string>, includeAcknowledged: bool) {
    if ids == [] then exists i :: 0 <= i < |receipts| && Matches(receipts[i], includeAcknowledged)
    else forall id :: id in ids ==> Listed(receipts, id)
  }

  /** Deletes every listed id from the set of wanted ones. */
  method ReceiptListReady(receipts: seq<Receipt>, ids: seq<string>, includeAcknowledged: bool) returns (ready: bool)
    ensures ready == Ready(receipts, ids, includeAcknowledged)
  {
    if ids == [] {
      for i := 0 to |receipts|
        invariant forall j :: 0 <= j < i ==> !Matches(receipts[j], includeAcknowledged)
      {
        if Matches(receipts[i], includeAcknowledged) { return true; }
      }
      return false;
    }
    var wanted := set id | id in ids;
    for i := 0 to |receipts|
      invariant forall id :: id in wanted <==> id in ids && !Listed(receipts[..i], id)
    {
      assert receipts[..i + 1] == receipts[..i] + [receipts[i]];
      forall id ensures Listed(receipts[..i + 1], id) <==> Listed(receipts[..i], id) || id == receipts[i].uploadID {
        if Listed(receipts[..i], id) {
          var j :| 0 <= j < i && receipts[..i][j].uploadID == id;
          assert receipts[..i + 1][j].uploadID == id;
        }
        assert receipts[..i + 1][i].uploadID == receipts[i].uploadID;
      }
      wanted := wanted - {receipts[i].uploadID};
    }
    assert receipts[..|receipts|] == receipts;
    ready := wanted == {};
    if !ready {
      var id :| id in wanted;
      assert id in ids && !Listed(receipts, id);
    }
  }

  // ---------- selection ----------

  /** Each id once, where it first stands. */
  function Distinct(ids: seq<string>): seq<string> {
    if ids == [] then []
    else
      var before := Distinct(ids[..|ids| - 1]);
      if ids[|ids| - 1] in ids[..|ids| - 1] then before else before + [ids[|ids| - 1]]
  }

  lemma {:induction false} DistinctIsSet(ids: seq<string>)
    ensures forall id :: id in Distinct(ids) <==> id in ids
    ensures forall i, j :: 0 <= i < j < |Distinct(ids)| ==> Distinct(ids)[i] != Distinct(ids)[j]
  {
    if ids != [] { DistinctIsSet(ids[..|ids| - 1]); }
  }

  function Pending(receipts: seq<Receipt>): seq<Receipt> {
    if receipts == [] then []
    else
      var r := receipts[|receipts| - 1];
      Pending(receipts[..|receipts| - 1]) + if r.acknowledged then [] else [r]
  }

  function ByID(receipts: seq<Receipt>): (m: map<string, Receipt>)
    ensures forall id :: id in m ==> m[id] in receipts && m[id].uploadID == id
  {
    if receipts == [] then map[]
    else
      var r := receipts[|receipts| - 1];
      ByID(receipts[..|receipts| - 1])[r.uploadID := r]
  }

  /** The receipts chosen, and one failure for each distinct id that cannot be. */
  function Chosen(byID: map<string, Receipt>, ids: seq<string>): (seq<Receipt>, seq<SelectError>) {
    if ids == [] then ([], [])
    else
      var (selected, failures) := Chosen(byID, ids[..|ids| - 1]);
      var id := ids[|ids| - 1];
      if id in ids[..|ids| - 1] then (selected, failures)
      else if !ValidID(id) then (selected, failures + [InvalidID(id)])
      else if id !in byID then (selected, failures + [NotCompleted(id)])
      else (selected + [byID[id]], failures)
  }

  function Select(receipts: seq<Receipt>, ids: seq<string>): (seq<Receipt>, seq<SelectError>) {
    if ids == [] then (Pending(receipts), []) else Chosen(ByID(receipts), ids)
  }

  method SelectReceipts(receipts: seq<Receipt>, ids: seq<string>)
    returns (selected: seq<Receipt>, failures: seq<SelectError>)
    ensures (selected, failures) == Select(receipts, ids)
  {
    selected, failures := [], [];
    if ids == [] {
      for i := 0 to |receipts|
        invariant selected == Pending(receipts[..i])
      {
        assert receipts[..i + 1][..i] == receipts[..i];
        if !receipts[i].acknowledged { selected := selected + [receipts[i]]; }
      }
      assert receipts[..|receipts|] == receipts;
      return;
    }
    var byID: map<string, Receipt> := map[];
    for i := 0 to |receipts|
      invariant byID == ByID(receipts[..i])
    {
      assert receipts[..i + 1][..i] == receipts[..i];
      byID := byID[receipts[i].uploadID := receipts[i]];
    }
    assert receipts[..|receipts|] == receipts;
    var seen: set<string> := {};
    for i := 0 to |ids|
      invariant (selected, failures) == Chosen(byID, ids[..i])
      invariant seen == set id | id in ids[..i]
    {
      assert ids[..i + 1][..i] == ids[..i];
      var id := ids[i];
      if id !in seen {
        seen := seen + {id};
        if !ValidID(id) { failures := failures + [InvalidID(id)]; }
        else if id !in byID { failures := failures + [NotCompleted(id)]; }
        else { selected := selected + [byID[id]]; }
      }
    }
    assert ids[..|ids|] == ids;
  }

  lemma {:induction false} ListedIsKeyed(receipts: seq<Receipt>, id: string)
    requires Listed(receipts, id)
    ensures id in ByID(receipts)
  {
    var n := |receipts| - 1;
    if receipts[n].uploadID != id {
      var i :| 0 <= i < |receipts| && receipts[i].uploadID == id;
      assert receipts[..n][i].uploadID == id;
      ListedIsKeyed(receipts[..n], id);
    }
  }

  function UploadIDs(receipts: seq<Receipt>): (ids: seq<string>)
    ensures |ids| == |receipts|
  {
    seq(|receipts|, i requires 0 <= i < |receipts| => receipts[i].uploadID)
  }

  lemma {:induction false} ChosenAll(byID: map<string, Receipt>, ids: seq<string>)
    requires forall id :: id in ids ==> ValidID(id) && id in byID && byID[id].uploadID == id
    ensures var (selected, failures) := Chosen(byID, ids);
      failures == [] && UploadIDs(selected) == Distinct(ids)
  {
    if ids != [] {
      var n := |ids| - 1;
      assert forall id :: id in ids[..n] ==> id in ids;
      ChosenAll(byID, ids[..n]);
      assert ids[n] in ids;
    }
  }

  lemma {:induction false} SomePending(receipts: seq<Receipt>)
    requires exists i :: 0 <= i < |receipts| && Matches(receipts[i], false)
    ensures Pending(receipts) != []
  {
    var n := |receipts| - 1;
    if receipts[n].acknowledged {
      var i :| 0 <= i < |receipts| && Matches(receipts[i], false);
      assert Matches(receipts[..n][i], false);
      SomePending(receipts[..n]);
    }
  }

  /** A ready list never disappoints the selection: each distinct requested id is selected once, in request
      order and without failures; with no ids requested, something is selected. */
  lemma ReadyAgreesWithSelection(receipts: seq<Receipt>, ids: seq<string>)
    requires Ready(receipts, ids, false) && forall id :: id in ids ==> ValidID(id)
    ensures var (selected, failures) := Select(receipts, ids);
      && failures == []
      && if ids == [] then selected != [] && (forall r :: r in selected ==> r in receipts && !r.acknowledged)
         else UploadIDs(selected) == Distinct(ids) && (forall r :: r in selected ==> r in receipts)
  {
    if ids == [] {
      SomePending(receipts);
      PendingIsPart(receipts);
    } else {
      forall id | id in ids ensures id in ByID(receipts) { ListedIsKeyed(receipts, id); }
      ChosenAll(ByID(receipts), ids);
      ChosenIsPart(receipts, ids);
    }
  }

  lemma {:induction false} PendingIsPart(receipts: seq<Receipt>)
    ensures forall r :: r in Pending(receipts) ==> r in receipts && !r.acknowledged
  {
    if receipts != [] { PendingIsPart(receipts[..|receipts| - 1]); }
  }

  /** Without requested ids exactly the unacknowledged receipts are selected, each where it stands in the list. */
  lemma {:induction false} PendingPlaces(receipts: seq<Receipt>) returns (places: seq<nat>)
    ensures var selected := Select(receipts, []).0;
      && |places| == |selected| && (forall i :: 0 <= i < |places| ==> places[i] < |receipts|)
      && (forall i :: 0 <= i < |places| ==> selected[i] == receipts[places[i]])
    ensures forall i, j :: 0 <= i < j < |places| ==> places[i] < places[j]
    ensures forall j: nat :: j < |receipts| ==> (j in places <==> !receipts[j].acknowledged)
  {
    if receipts == [] {
      places := [];
    } else {
      var n := |receipts| - 1;
      var before := PendingPlaces(receipts[..n]);
      places := before + if receipts[n].acknowledged then [] else [n];
    }
  }

  /** That is, as often as they are listed. */
  lemma {:induction false} PendingCounts(receipts: seq<Receipt>, r: Receipt)
    ensures multiset(Select(receipts, []).0)[r] == if r.acknowledged then 0 else multiset(receipts)[r]
  {
    if receipts != [] {
      var n := |receipts| - 1;
      PendingCounts(receipts[..n], r);
      assert receipts == receipts[..n] + [receipts[n]];
      assert multiset(receipts) == multiset(receipts[..n]) + multiset([receipts[n]]);
      var some := if receipts[n].acknowledged then [] else [receipts[n]];
      assert multiset(Pending(receipts)) == multiset(Pending(receipts[..n])) + multiset(some);
    }
  }

  lemma {:induction false} ChosenIsPart(receipts: seq<Receipt>, ids: seq<string>)
    ensures forall r :: r in Chosen(ByID(receipts), ids).0 ==> r in receipts
  {
    if ids != [] { ChosenIsPart(receipts, ids[..|ids| - 1]); }
  }

  function FailedIDs(failures: seq<SelectError>): (ids: seq<string>)
    ensures |ids| == |failures|
  {
    seq(|failures|, i requires 0 <= i < |failures| => failures[i].id)
  }

  lemma {:induction false} KeyedIsListed(receipts: seq<Receipt>, id: string)
    ensures id in ByID(receipts) <==> Listed(receipts, id)
  {
    if id in ByID(receipts) {
      var r := ByID(receipts)[id];
      var i :| 0 <= i < |receipts| && receipts[i] == r;
    } else if Listed(receipts, id) {
      ListedIsKeyed(receipts, id);
    }
  }

  lemma {:induction false} ChosenAccounts(byID: map<string, Receipt>, ids: seq<string>)
    requires forall id :: id in byID ==> byID[id].uploadID == id
    ensures var (selected, failures) := Chosen(byID, ids);
      && |selected| + |failures| == |Distinct(ids)|
      && (forall id :: id in UploadIDs(selected) <==> id in ids && ValidID(id) && id in byID)
      && (forall id :: id in FailedIDs(failures) <==> id in ids && !(ValidID(id) && id in byID))
  {
    if ids != [] {
      var n := |ids| - 1;
      ChosenAccounts(byID, ids[..n]);
      var (selected, failures) := Chosen(byID, ids[..n]);
      assert forall id :: id in ids <==> id in ids[..n] || id == ids[n];
      if ids[n] !in ids[..n] {
        if !ValidID(ids[n]) {
          assert FailedIDs(failures + [InvalidID(ids[n])]) == FailedIDs(failures) + [ids[n]];
        } else if ids[n] !in byID {
          assert FailedIDs(failures + [NotCompleted(ids[n])]) == FailedIDs(failures) + [ids[n]];
        } else {
          assert UploadIDs(selected + [byID[ids[n]]]) == UploadIDs(selected) + [ids[n]];
        }
      }
    }
  }

  /** Every requested id is accounted for once: selected if it is valid and completed, reported otherwise. */
  lemma SelectionAccounts(receipts: seq<Receipt>, ids: seq<string>)
    requires ids != []
    ensures var (selected, failures) := Select(receipts, ids);
      && |selected| + |failures| == |Distinct(ids)|
      && (forall id :: id in UploadIDs(selected) <==> id in ids && ValidID(id) && Listed(receipts, id))
      && (forall id :: id in FailedIDs(failures) <==> id in ids && !(ValidID(id) && Listed(receipts, id)))
  {
    hide Chosen, ByID, Distinct;
    ChosenAccounts(ByID(receipts), ids);
    forall id ensures id in ByID(receipts) <==> Listed(receipts, id) { KeyedIsListed(receipts, id); }
  }

  ghost predicate Selectable(receipts: seq<Receipt>, id: string) { ValidID(id) && Listed(receipts, id) }

  /** The ids that can be selected, or those that cannot, in order. */
  ghost function Sorted(receipts: seq<Receipt>, ids: seq<string>, selectable: bool): seq<string> {
    if ids == [] then []
    else
      var n := |ids| - 1;
      Sorted(receipts, ids[..n], selectable) + if Selectable(receipts, ids[n]) == selectable then [ids[n]] else []
  }

  lemma {:induction false} ChosenInOrder(receipts: seq<Receipt>, ids: seq<string>)
    ensures var (selected, failures) := Chosen(ByID(receipts), ids);
      && UploadIDs(selected) == Sorted(receipts, Distinct(ids), true)
      && FailedIDs(failures) == Sorted(receipts, Distinct(ids), false)
      && forall i :: 0 <= i < |failures| ==> (failures[i].InvalidID? <==> !ValidID(failures[i].id))
  {
    hide ValidID, ByID, Listed;
    if ids != [] {
      var n, id := |ids| - 1, ids[|ids| - 1];
      ChosenInOrder(receipts, ids[..n]);
      KeyedIsListed(receipts, id);
      var (selected, failures) := Chosen(ByID(receipts), ids[..n]);
      if id !in ids[..n] {
        var before := Distinct(ids[..n]);
        assert (before + [id])[..|before|] == before;
        if !ValidID(id) {
          assert FailedIDs(failures + [InvalidID(id)]) == FailedIDs(failures) + [id];
        } else if id !in ByID(receipts) {
          assert FailedIDs(failures + [NotCompleted(id)]) == FailedIDs(failures) + [id];
        } else {
          ByIDKeeps(receipts, id);
          assert UploadIDs(selected + [ByID(receipts)[id]]) == UploadIDs(selected) + [id];
        }
      }
    }
  }

  lemma ByIDKeeps(receipts: seq<Receipt>, id: string)
    requires id in ByID(receipts)
    ensures ByID(receipts)[id].uploadID == id
  {}

  /** Where an id is listed more than once the last receipt counts. */
  lemma {:induction false} LastListedCounts(receipts: seq<Receipt>, j: nat)
    requires j < |receipts| && forall i :: j < i < |receipts| ==> receipts[i].uploadID != receipts[j].uploadID
    ensures receipts[j].uploadID in ByID(receipts) && ByID(receipts)[receipts[j].uploadID] == receipts[j]
  {
    var n := |receipts| - 1;
    if j < n { LastListedCounts(receipts[..n], j); }
  }

  /** Requested ids are selected in request order, and those that cannot be are reported in request order, each once and
      for its own reason. */
  lemma SelectedInOrder(receipts: seq<Receipt>, ids: seq<string>)
    requires ids != []
    ensures var (selected, failures) := Select(receipts, ids);
      && UploadIDs(selected) == Sorted(receipts, Distinct(ids), true)
      && FailedIDs(failures) == Sorted(receipts, Distinct(ids), false)
      && forall i :: 0 <= i < |failures| ==> (failures[i].InvalidID? <==> !ValidID(failures[i].id))
  {
    ChosenInOrder(receipts, ids);
  }

  // ---------- waiting ----------

  lemma PollBound(polls: nat, timeout: int, interval: int)
    requires 0 < timeout && 0 < interval && (polls <= 1 || (polls - 2) * interval < timeout)
    ensures polls <= (timeout + interval - 1) / interval + 1
  {
    Chunks.CountBounds(timeout, interval);
    var m := Chunks.ExpectedChunks(timeout, interval);
    Chunks.ScaleMonotone(m, polls - 2, interval);
    Chunks.ScaleMonotone(0, (timeout + interval - 1) / interval, interval);
  }

  /** When poll i is sent: each poll takes its time, then there is a pause, but never beyond the deadline. */
  function AskedAt(cost: nat -> nat, start: Time, interval: int, deadline: Time, i: nat): Time {
    if i == 0 then start
    else Min(AskedAt(cost, start, interval, deadline, i - 1) + cost(i - 1) + interval, deadline)
  }

  /** The first n polls brought lists that were not ready, each before the deadline. */
  ghost predicate WentOn(lists: nat -> Option<seq<Receipt>>, cost: nat -> nat, start: Time, ids: seq<string>,
                         includeAcknowledged: bool, interval: int, deadline: Time, n: nat)
  {
    forall i: nat :: i < n ==>
      && lists(i).Some? && !Ready(lists(i).value, ids, includeAcknowledged)
      && AskedAt(cost, start, interval, deadline, i) + cost(i) < deadline
  }

  /** Exactly how a wait ends. Wrong arguments are refused unasked; without a timeout the first list counts as it is;
      otherwise the first failure, ready list or passed deadline decides. */
  ghost predicate Waits(lists: nat -> Option<seq<Receipt>>, cost: nat -> nat, start: Time, ids: seq<string>,
                        includeAcknowledged: bool, timeout: int, interval: int,
                        result: Result<seq<Receipt>, WaitError>, polls: nat)
  {
    if !(0 <= timeout <= MAX_WAIT) then result == Err(BadTimeout) && polls == 0
    else if exists id :: id in ids && !ValidID(id) then result == Err(BadUploadID) && polls == 0
    else if timeout == 0 then
      polls == 1 && result == (match lists(0) case None => Err(ListFailed) case Some(l) => Ok(l))
    else if !(MIN_POLL <= interval <= MAX_POLL) then result == Err(BadInterval) && polls == 0
    else polls > 0 && Ends(lists, cost, start, ids, includeAcknowledged, interval, start + timeout, result, polls - 1)
  }

  ghost predicate Ends(lists: nat -> Option<seq<Receipt>>, cost: nat -> nat, start: Time, ids: seq<string>,
                       includeAcknowledged: bool, interval: int, deadline: Time,
                       result: Result<seq<Receipt>, WaitError>, n: nat)
  {
    && WentOn(lists, cost, start, ids, includeAcknowledged, interval, deadline, n)
    && match lists(n)
       case None => result == Err(ListFailed)
       case Some(list) =>
         if Ready(list, ids, includeAcknowledged) then result == Ok(list)
         else result == Err(TimedOut) && AskedAt(cost, start, interval, deadline, n) + cost(n) >= deadline
  }

  /** That leaves one outcome only. */
  lemma WaitIsDetermined(lists: nat -> Option<seq<Receipt>>, cost: nat -> nat, start: Time, ids: seq<string>,
                         includeAcknowledged: bool, timeout: int, interval: int,
                         r: Result<seq<Receipt>, WaitError>, n: nat, s: Result<seq<Receipt>, WaitError>, m: nat)
    requires Waits(lists, cost, start, ids, includeAcknowledged, timeout, interval, r, n)
    requires Waits(lists, cost, start, ids, includeAcknowledged, timeout, interval, s, m)
    ensures r == s && n == m
  {
    hide Ready, AskedAt;
  }

  /** Polls until the list is ready or the deadline has passed. `lists` is what each poll returns and `cost`
      how long it takes; sleeping advances the clock by exactly the delay. */
  method WaitForReceipts(lists: nat -> Option<seq<Receipt>>, cost: nat -> nat, start: Time,
                         ids: seq<string>, includeAcknowledged: bool, timeout: int, interval: int)
    returns (result: Result<seq<Receipt>, WaitError>, polls: nat, slept: int)
    ensures result.Ok? && timeout != 0 ==> Ready(result.value, ids, includeAcknowledged)
    ensures result.Ok? ==> polls >= 1 && lists(polls - 1) == Some(result.value)
    ensures result == Err(TimedOut) ==> forall i :: 0 <= i < polls ==>
      lists(i).Some? && !Ready(lists(i).value, ids, includeAcknowledged)
    ensures 0 <= slept <= Max(0, timeout)
    ensures timeout > 0 && interval > 0 ==> polls <= (timeout + interval - 1) / interval + 1
    ensures timeout <= 0 ==> polls <= 1
    ensures Waits(lists, cost, start, ids, includeAcknowledged, timeout, interval, result, polls)
  {
    hide Ready, WentOn, AskedAt;
    polls, slept := 0, 0;
    if timeout < 0 || timeout > MAX_WAIT { ShortWait(timeout, interval); return Err(BadTimeout), 0, 0; }
    for i := 0 to |ids|
      invariant forall j :: 0 <= j < i ==> ValidID(ids[j])
    {
      if !ValidID(ids[i]) { ShortWait(timeout, interval); return Err(BadUploadID), 0, 0; }
    }
    if timeout == 0 {
      return (match lists(0) case None => Err(ListFailed) case Some(l) => Ok(l)), 1, 0;
    }
    if interval < MIN_POLL || interval > MAX_POLL { ShortWait(timeout, interval); return Err(BadInterval), 0, 0; }
    var now, deadline := start, start + timeout;
    assert WentOn(lists, cost, start, ids, includeAcknowledged, interval, deadline, 0) && now == start by {
      NothingYet(lists, cost, start, ids, includeAcknowledged, interval, deadline);
    }
    assert now == AskedAt(cost, start, interval, deadline, 0) by {
      NothingYet(lists, cost, start, ids, includeAcknowledged, interval, deadline);
    }
    while true
      invariant 0 <= slept <= timeout && slept <= now - start
      invariant now == AskedAt(cost, start, interval, deadline, polls)
      invariant WentOn(lists, cost, start, ids, includeAcknowledged, interval, deadline, polls)
      invariant now < deadline ==> slept == polls * interval
      invariant polls == 0 || (polls - 1) * interval < timeout
      invariant forall i :: 0 <= i < polls ==> lists(i).Some? && !Ready(lists(i).value, ids, includeAcknowledged)
      decreases deadline - now
    {
      PollBound(polls + 1, timeout, interval);
      var list := lists(polls);
      now := now + cost(polls);
      polls := polls + 1;
      if list.None? { return Err(ListFailed), polls, slept; }
      var ready := ReceiptListReady(list.value, ids, includeAcknowledged);
      if ready { return Ok(list.value), polls, slept; }
      var remaining := deadline - now;
      if remaining <= 0 { return Err(TimedOut), polls, slept; }
      var delay := Min(interval, remaining);
      assert polls * interval == (polls - 1) * interval + interval;
      OnceMore(lists, cost, start, ids, includeAcknowledged, interval, deadline, polls - 1);
      now := now + delay;
      slept := slept + delay;
    }
  }

  lemma NothingYet(lists: nat -> Option<seq<Receipt>>, cost: nat -> nat, start: Time, ids: seq<string>,
                   includeAcknowledged: bool, interval: int, deadline: Time)
    ensures WentOn(lists, cost, start, ids, includeAcknowledged, interval, deadline, 0)
    ensures AskedAt(cost, start, interval, deadline, 0) == start
  {}

  lemma OnceMore(lists: nat -> Option<seq<Receipt>>, cost: nat -> nat, start: Time, ids: seq<string>,
                 includeAcknowledged: bool, interval: int, deadline: Time, n: nat)
    requires WentOn(lists, cost, start, ids, includeAcknowledged, interval, deadline, n)
    requires lists(n).Some? && !Ready(lists(n).value, ids, includeAcknowledged)
    requires AskedAt(cost, start, interval, deadline, n) + cost(n) < deadline
    ensures WentOn(lists, cost, start, ids, includeAcknowledged, interval, deadline, n + 1)
    ensures AskedAt(cost, start, interval, deadline, n + 1)
         == Min(AskedAt(cost, start, interval, deadline, n) + cost(n) + interval, deadline)
  {
    AskedNext(cost, start, interval, deadline, n);
    hide Ready, AskedAt;
  }

  lemma AskedNext(cost: nat -> nat, start: Time, interval: int, deadline: Time, n: nat)
    ensures AskedAt(cost, start, interval, deadline, n + 1)
         == Min(AskedAt(cost, start, interval, deadline, n) + cost(n) + interval, deadline)
  {}

  lemma ShortWait(timeout: int, interval: int)
    ensures timeout > 0 && interval > 0 ==> 0 <= (timeout + interval - 1) / interval + 1
  {
    if timeout > 0 && interval > 0 { PollBound(0, timeout, interval); }
  }
}
