/**
 * The EmpatheticDialogues CSV as the scripts read it: one row per utterance,
 * and `df.groupby('conv_id')` followed by `group.sort_values('utterance_idx')`,
 * which visits the conversations in increasing `conv_id` order, each with
 * its utterances in increasing `utterance_idx` order.
 */
module Dialogues {
  import opened Wrappers
  import Frames
  import Sorting

  /** One CSV row. */
  datatype Utterance = Utterance(
    convId: string,
    utteranceIdx: int,
    speakerIdx: int,
    context: Frames.Cell,
    prompt: Frames.Cell,
    utterance: Frames.Cell)

  /** A conversation as `groupby` hands it over: its id and its rows. */
  datatype Group = Group(convId: string, rows: seq<Utterance>)

  function ConvIds(rows: seq<Utterance>): (r: seq<string>)
    ensures |r| == |rows| && forall k :: 0 <= k < |rows| ==> r[k] == rows[k].convId
  {
    seq(|rows|, k requires 0 <= k < |rows| => rows[k].convId)
  }

  function IdMask(rows: seq<Utterance>, id: string): (m: seq<bool>)
    ensures |m| == |rows| && forall k :: 0 <= k < |rows| ==> m[k] == (rows[k].convId == id)
  {
    seq(|rows|, k requires 0 <= k < |rows| => rows[k].convId == id)
  }

  /** The sort key: a stable sort descending by `-utterance_idx` is ascending by `utterance_idx`. */
  function NegIdx(u: Utterance): real {
    -(u.utteranceIdx as real)
  }

  /** The rows of conversation `id`, sorted by `utterance_idx`. */
  function Conversation(rows: seq<Utterance>, id: string): (r: seq<Utterance>)
    ensures multiset(r) == multiset(Frames.Select(rows, IdMask(rows, id)))
    ensures forall i, j :: 0 <= i < j < |r| ==> r[i].utteranceIdx <= r[j].utteranceIdx
  {
    var r := Sorting.SortedBy(Frames.Select(rows, IdMask(rows, id)), NegIdx);
    assert forall i, j :: 0 <= i < j < |r| ==> NegIdx(r[i]) >= NegIdx(r[j]);
    r
  }

  /** `df.groupby('conv_id')` with each group sorted by `utterance_idx`. */
  function GroupBy(rows: seq<Utterance>): (r: seq<Group>)
    ensures |r| == |Sorting.SortedUnique(ConvIds(rows))|
    ensures forall k :: 0 <= k < |r| ==>
      r[k].convId == Sorting.SortedUnique(ConvIds(rows))[k] && r[k].rows == Conversation(rows, r[k].convId)
  {
    var ids := Sorting.SortedUnique(ConvIds(rows));
    seq(|ids|, k requires 0 <= k < |ids| => Group(ids[k], Conversation(rows, ids[k])))
  }

  /** Each group's rows are exactly the rows carrying its id. */
  lemma ConversationMembers(rows: seq<Utterance>, id: string, u: Utterance)
    ensures u in Conversation(rows, id) <==> u in rows && u.convId == id
  {
    assert u in Conversation(rows, id) <==> u in multiset(Frames.Select(rows, IdMask(rows, id)));
    Frames.SelectMembers(rows, IdMask(rows, id), u);
  }

  /**
   * The groups come in strictly increasing id order, so no id is visited
   * twice, and every row lies in the group of its own id.
   */
  lemma GroupByFacts(rows: seq<Utterance>, u: Utterance)
    ensures forall i, j :: 0 <= i < j < |GroupBy(rows)| ==> Sorting.StrLess(GroupBy(rows)[i].convId, GroupBy(rows)[j].convId)
    ensures u in rows ==> exists k :: 0 <= k < |GroupBy(rows)| && GroupBy(rows)[k].convId == u.convId && u in GroupBy(rows)[k].rows
  {
    var ids := Sorting.SortedUnique(ConvIds(rows));
    Sorting.SortedUniqueIncreasing(ConvIds(rows));
    if u in rows {
      var p :| 0 <= p < |rows| && rows[p] == u;
      assert ConvIds(rows)[p] == u.convId;
      assert u.convId in ConvIds(rows);
      assert u.convId in ids;
      var k :| 0 <= k < |ids| && ids[k] == u.convId;
      ConversationMembers(rows, u.convId, u);
      assert GroupBy(rows)[k].convId == u.convId && u in GroupBy(rows)[k].rows;
    }
  }

  /** The opening row: `group[group.utterance_idx == 1].iloc[0]`, the first such row, if any. */
  function Opening(rows: seq<Utterance>): (r: Option<nat>)
    ensures r.Some? ==> r.value < |rows| && rows[r.value].utteranceIdx == 1
    ensures r.Some? ==> forall j :: 0 <= j < r.value ==> rows[j].utteranceIdx != 1
    ensures r.None? <==> forall j :: 0 <= j < |rows| ==> rows[j].utteranceIdx != 1
  {
    if rows == [] then None
    else if rows[0].utteranceIdx == 1 then Some(0)
    else match Opening(rows[1..])
      case None => None
      case Some(k) => Some(k + 1)
  }

  /** `set(ids)` membership for the ids of groups. */
  function GroupIds(groups: seq<Group>): (r: seq<string>)
    ensures |r| == |groups| && forall k :: 0 <= k < |groups| ==> r[k] == groups[k].convId
  {
    seq(|groups|, k requires 0 <= k < |groups| => groups[k].convId)
  }

  /** `GroupBy` never yields two groups with the same id. */
  lemma GroupIdsDistinct(rows: seq<Utterance>, i: nat, j: nat)
    requires i < j < |GroupBy(rows)|
    ensures GroupBy(rows)[i].convId != GroupBy(rows)[j].convId
  {
    var ids := Sorting.SortedUnique(ConvIds(rows));
    Sorting.SortedUniqueIncreasing(ConvIds(rows));
    assert GroupBy(rows)[i].convId == ids[i] && GroupBy(rows)[j].convId == ids[j];
    if ids[i] == ids[j] {
      Sorting.IncreasingDistinct(ids, i, j);
    }
  }
}
