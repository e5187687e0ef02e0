/**
 * The session-list cursor (src/util.rs): moving the selected index down
 * and up through the stored sessions, wrapping at either end, and picking
 * the session at the new index.
 *
 * The revision of the application state these events act on carries a
 * selected index next to the selected session; selecting by index picks
 * the stored session at that index, or none when the index is past the end.
 */
module Navigation {
  import opened Wrappers
  import opened Parser

  /** The index after a move down: one further, back to 0 after the last. */
  function NextIndex(index: nat, count: nat): (r: nat)
    ensures index < count ==> r == (index + 1) % count
  {
    if index + 1 == count then
      ModOfCount(count);
      0
    else
      ModBelowCount(index + 1, count);
      index + 1
  }

  /** The index after a move up: one back, round to the last from 0. */
  function PrevIndex(index: nat, count: nat): (r: nat)
    requires index == 0 ==> count > 0
    ensures index < count ==> r == (index + count - 1) % count
  {
    if index == 0 then
      ModBelowCount(count - 1, count);
      count - 1
    else
      ModBelowCount(index - 1, count);
      index - 1
  }

  /** Below the modulus, `%` changes nothing, also after adding the modulus once. */
  lemma ModBelowCount(k: int, count: int)
    ensures 0 <= k < count ==> k % count == k && (k + count) % count == k
  {
  }

  lemma ModOfCount(count: int)
    ensures 0 < count ==> count % count == 0
  {
  }

  /** From an index inside the list, both moves land inside the list. */
  lemma MovesStayInRange(index: nat, count: nat)
    requires index < count
    ensures NextIndex(index, count) < count
    ensures PrevIndex(index, count) < count
  {
  }

  /** Inside the list, a move down then up, or up then down, comes back to the start. */
  lemma MovesUndoEachOther(index: nat, count: nat)
    requires index < count
    ensures PrevIndex(NextIndex(index, count), count) == index
    ensures NextIndex(PrevIndex(index, count), count) == index
  {
  }

  /** The index after `times` moves down. */
  function MoveDownTimes(index: nat, count: nat, times: nat): nat {
    if times == 0 then index else NextIndex(MoveDownTimes(index, count, times - 1), count)
  }

  /**
   * Up to one full round, moving down `times` times from an index inside
   * the list advances it by `times`, wrapping once past the end; after
   * `count` moves it is back where it started.
   */
  lemma {:induction false} MoveDownRound(index: nat, count: nat, times: nat)
    requires index < count && times <= count
    ensures MoveDownTimes(index, count, times) ==
            if index + times < count then index + times else index + times - count
  {
    if times > 0 {
      MoveDownRound(index, count, times - 1);
    }
  }

  class App {
    var sessions: seq<Session>
    var selectedSessionIndex: Option<nat>
    var selectedSession: Option<Session>

    /** Picks the stored session at `index`, or none past the end. */
    method SelectSession(index: nat)
      modifies this
      ensures selectedSession == (if index < |sessions| then Some(sessions[index]) else None)
      ensures sessions == old(sessions) && selectedSessionIndex == old(selectedSessionIndex)
    {
      selectedSession := if index < |sessions| then Some(sessions[index]) else None;
    }

    /**
     * `move_down_event`: the selected index moves one down, wrapping to 0
     * past the last session, and the session there is picked. The source
     * panics when no index is selected.
     */
    method MoveDownEvent()
      requires selectedSessionIndex.Some?
      modifies this
      ensures sessions == old(sessions)
      ensures selectedSessionIndex == Some(NextIndex(old(selectedSessionIndex.value), |sessions|))
      ensures selectedSession ==
                (if selectedSessionIndex.value < |sessions| then Some(sessions[selectedSessionIndex.value]) else None)
    {
      var count := |sessions|;
      var index := selectedSessionIndex.value;
      var newIndex := index + 1;
      if newIndex == count {
        newIndex := 0;
      }
      selectedSessionIndex := Some(newIndex);
      SelectSession(newIndex);
    }

    /**
     * `move_up_event`: the selected index moves one up, wrapping from 0 to
     * the last session, and the session there is picked. The source panics
     * when no index is selected, and the wrap underflows on an empty list.
     */
    method MoveUpEvent()
      requires selectedSessionIndex.Some?
      requires selectedSessionIndex.value == 0 ==> |sessions| > 0
      modifies this
      ensures sessions == old(sessions)
      ensures selectedSessionIndex == Some(PrevIndex(old(selectedSessionIndex.value), |sessions|))
      ensures selectedSession ==
                (if selectedSessionIndex.value < |sessions| then Some(sessions[selectedSessionIndex.value]) else None)
    {
      var count := |sessions|;
      var index := selectedSessionIndex.value;
      var newIndex: nat := if index == 0 then 0 else index - 1;
      if newIndex == 0 && index == 0 {
        newIndex := count - 1;
      }
      selectedSessionIndex := Some(newIndex);
      SelectSession(newIndex);
    }
  }
}
