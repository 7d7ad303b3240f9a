/** The recent-activity list on the dashboard: a list of at most ten ledger entries kept current
    by realtime INSERT and UPDATE events, and the signed amount each entry shows. */
module TransactionHistory {
  import opened Js

  /** One entry of the list, as the realtime payload delivers it. */
  datatype Entry = Entry(id: string, kind: string, category: string, description: string,
                         amount: int, status: string, createdAt: string)

  /** The INSERT updater: the new entry first, then at most nine of the previous ones. */
  function OnInsert(prev: seq<Entry>, newTx: Entry): (r: seq<Entry>)
    ensures |r| >= 1 && r[0] == newTx
  {
    [newTx] + Slice(prev, 0, 9)
  }

  /** After an INSERT the new entry is first, the length is min(old length, 9) + 1 (so never more
      than ten), and old entry i sits at position i + 1 for every i < 9. */
  lemma InsertShape(prev: seq<Entry>, newTx: Entry)
    ensures var r := OnInsert(prev, newTx);
            r[0] == newTx &&
            |r| == (if |prev| < 9 then |prev| else 9) + 1 && |r| <= 10 &&
            forall i :: 0 <= i < |prev| && i < 9 ==> r[i + 1] == prev[i]
  {
    SlicePrefix(prev, 9);
  }

  /** The UPDATE updater: every entry with the event's id is replaced by the new version. */
  function OnUpdate(prev: seq<Entry>, updated: Entry): (r: seq<Entry>)
    ensures |r| == |prev|
    ensures forall i :: 0 <= i < |prev| ==> r[i] == if prev[i].id == updated.id then updated else prev[i]
  {
    if prev == [] then []
    else [if prev[0].id == updated.id then updated else prev[0]] + OnUpdate(prev[1..], updated)
  }

  /** An UPDATE for an id that is not in the list leaves the list as it is. */
  lemma UpdateAbsentNoChange(prev: seq<Entry>, updated: Entry)
    requires forall i :: 0 <= i < |prev| ==> prev[i].id != updated.id
    ensures OnUpdate(prev, updated) == prev
  {
  }

  /** Delivering the same UPDATE twice is the same as delivering it once. */
  lemma UpdateIdempotent(prev: seq<Entry>, updated: Entry)
    ensures OnUpdate(OnUpdate(prev, updated), updated) == OnUpdate(prev, updated)
  {
  }

  /** An UPDATE never changes which ids the list holds. */
  lemma UpdateKeepsIds(prev: seq<Entry>, updated: Entry)
    ensures forall i :: 0 <= i < |prev| ==> OnUpdate(prev, updated)[i].id == prev[i].id
  {
  }

  /** `formatAmount`: "+" before the formatted amount for a credit, "-" for anything else.
      The currency formatting itself is an input. */
  function FormatAmount(formatted: string, kind: string): (r: string)
    ensures |r| == |formatted| + 1 && r[1..] == formatted
    ensures r[0] == '+' <==> kind == "credit"
    ensures r[0] == '-' <==> kind != "credit"
  {
    if kind == "credit" then "+" + formatted else "-" + formatted
  }
}
