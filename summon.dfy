// The summon poll of the Kotlin bot (command/user/Summon.kt): a summon message with one button
// per answer, where each user holds at most one answer, kept in a persisted list of records
// and terminated by the priority-queue scheduler at its time. Time is an int (seconds); the
// time parsing service, the emotes and the message texts are not modelled.

module Summons {
  import opened Text
  import opened Collections
  import opened Schedulers

  /** SummonData (Summon.kt:223-230): one summon message, and each user's answer. */
  datatype SummonData = SummonData(timestamp: int, gid: string, cid: string, mid: string, uid: string,
                                   userToReact: map<string, string>)

  /** The first record of the message mid (Summon.kt:208-210). */
  function FindSummon(summons: seq<SummonData>, mid: string): (r: Option<nat>)
    ensures r.Some? ==> r.value < |summons| && summons[r.value].mid == mid
    ensures r.Some? ==> forall j :: 0 <= j < r.value ==> summons[j].mid != mid
    ensures r.None? ==> forall j :: 0 <= j < |summons| ==> summons[j].mid != mid
  {
    if summons == [] then None
    else if summons[0].mid == mid then Some(0)
    else match FindSummon(summons[1..], mid)
      case None => None
      case Some(i) => Some(i + 1)
  }

  /** Removing the record found for a message (list.remove, by equality) removes exactly that
      one: an equal record earlier in the list would have the same message id. */
  lemma RemoveFound(summons: seq<SummonData>, mid: string)
    requires FindSummon(summons, mid).Some?
    ensures var i := FindSummon(summons, mid).value;
            RemoveFirst(summons, summons[i]) == summons[..i] + summons[i + 1..]
  {
    var i := FindSummon(summons, mid).value;
    RemoveFirstAt(summons, summons[i]);
    assert Position(summons, summons[i]) == i;
  }

  /** A click on answer b by user u (Summon.kt:108-113): the same answer again withdraws it,
      any other answer replaces u's. */
  function ToggleVote(userToReact: map<string, string>, u: string, b: string): (r: map<string, string>)
    ensures forall v :: v != u ==> (v in r <==> v in userToReact) && (v in r ==> r[v] == userToReact[v])
    ensures u in r <==> !(u in userToReact && userToReact[u] == b)
    ensures u in r ==> r[u] == b
  {
    if u in userToReact && userToReact[u] == b then userToReact - {u} else userToReact[u := b]
  }

  /** Clicking the same answer twice gives the answers back, unless the user had another. */
  lemma ToggleTwice(userToReact: map<string, string>, u: string, b: string)
    requires u !in userToReact || userToReact[u] == b
    ensures ToggleVote(ToggleVote(userToReact, u, b), u, b) == userToReact
  {
  }

  /** A click on an answer that differs from the user's current one leaves that answer. */
  lemma ToggleReplaces(userToReact: map<string, string>, u: string, b: string, c: string)
    requires u in userToReact && userToReact[u] == c && c != b
    ensures ToggleVote(userToReact, u, b)[u] == b
  {
  }

  /** SummonState (Summon.kt:204-221): the records, and what was written to the file last. */
  class SummonState {
    var summons: seq<SummonData>
    var saved: Option<seq<SummonData>>

    constructor(loaded: seq<SummonData>)
      ensures summons == loaded && saved == None
    {
      summons := loaded;
      saved := None;
    }

    method Store()
      modifies this
      ensures summons == old(summons) && saved == Some(summons)
    {
      saved := Some(summons);
    }

    /** add (Summon.kt:212-215). */
    method Add(data: SummonData)
      modifies this
      ensures summons == old(summons) + [data] && saved == Some(summons)
    {
      summons := summons + [data];
      Store();
    }

    /** remove (Summon.kt:217-220). */
    method Remove(data: SummonData)
      modifies this
      ensures summons == RemoveFirst(old(summons), data) && saved == Some(summons)
    {
      summons := RemoveFirst(summons, data);
      Store();
    }
  }

  /** The message ids of the records, in order. */
  function MidsOf(summons: seq<SummonData>): (r: seq<string>)
    ensures |r| == |summons| && forall k :: 0 <= k < |summons| ==> r[k] == summons[k].mid
  {
    if summons == [] then [] else MidsOf(summons[..|summons| - 1]) + [summons[|summons| - 1].mid]
  }

  /** The termination tasks of the records: task base + k at the time of record k. */
  function TerminationsOf(summons: seq<SummonData>, base: int): (r: seq<QueueElement>)
    ensures |r| == |summons|
    ensures forall k :: 0 <= k < |summons| ==> r[k] == QueueElement(base + k, summons[k].timestamp)
  {
    if summons == [] then []
    else TerminationsOf(summons[..|summons| - 1], base) + [QueueElement(base + |summons| - 1, summons[|summons| - 1].timestamp)]
  }

  const FinishEmoji := "\U{1F6D1}"
  const DeleteEmoji := "\U{1F6AE}"

  class Summon {
    const state: SummonState
    const scheduler: Scheduler
    /** Task id k of the scheduler terminates the summon of message terminations[k]. */
    var terminations: seq<string>

    constructor(loaded: seq<SummonData>)
      ensures state.summons == loaded && state.saved == None
      ensures scheduler.queue == multiset{} && terminations == []
    {
      state := new SummonState(loaded);
      scheduler := new Scheduler();
      terminations := [];
    }

    /** registerJDA and initScheduler (Summon.kt:52-60): the termination of every loaded
        summon is queued at its time, in the order of the list. */
    method RegisterJda()
      modifies scheduler, this
      ensures terminations == old(terminations) + MidsOf(state.summons)
      ensures scheduler.queue == old(scheduler.queue) + multiset(TerminationsOf(state.summons, |old(terminations)|))
      ensures scheduler.ran == old(scheduler.ran)
    {
      scheduler.QueueAll(TerminationsOf(state.summons, |terminations|));
      terminations := terminations + MidsOf(state.summons);
    }

    /** handleSummonButtonEvent (Summon.kt:92-117) for a click of user u on button b of the
        message mid (onEvent, Summon.kt:62-67, ignores a message without a record): finish and
        delete remove the record whoever clicks; any other button toggles u's answer. */
    method HandleButton(mid: string, u: string, b: string)
      modifies state
      ensures FindSummon(old(state.summons), mid).None? ==> state.summons == old(state.summons) && state.saved == old(state.saved)
      ensures FindSummon(old(state.summons), mid).Some? ==>
                var i := FindSummon(old(state.summons), mid).value;
                var d := old(state.summons)[i];
                && state.saved == Some(state.summons)
                && (b == FinishEmoji || b == DeleteEmoji ==> state.summons == old(state.summons)[..i] + old(state.summons)[i + 1..])
                && (b != FinishEmoji && b != DeleteEmoji ==>
                      state.summons == old(state.summons)[i := d.(userToReact := ToggleVote(d.userToReact, u, b))])
    {
      var found := FindSummon(state.summons, mid);
      if found.None? {
        return;
      }
      var i := found.value;
      var data := state.summons[i];
      if b == FinishEmoji || b == DeleteEmoji {
        RemoveFound(state.summons, mid);
        state.Remove(data);
        return;
      }
      state.summons := state.summons[i := data.(userToReact := ToggleVote(data.userToReact, u, b))];
      state.Store();
    }

    /** createSummon (Summon.kt:137-159): a time before now is refused and nothing is recorded;
        otherwise the record is added with no answers and its termination queued at its time. */
    method CreateSummon(time: int, now: int, gid: string, cid: string, mid: string, uid: string) returns (ok: bool)
      modifies state, scheduler, this
      ensures ok == (time >= now)
      ensures !ok ==> state.summons == old(state.summons) && state.saved == old(state.saved)
                      && scheduler.queue == old(scheduler.queue) && terminations == old(terminations)
      ensures ok ==> && state.summons == old(state.summons) + [SummonData(time, gid, cid, mid, uid, map[])]
                     && state.saved == Some(state.summons)
                     && scheduler.queue == old(scheduler.queue) + multiset{QueueElement(|old(terminations)|, time)}
                     && terminations == old(terminations) + [mid]
      ensures scheduler.ran == old(scheduler.ran)
    {
      if time < now {
        return false;
      }
      state.Add(SummonData(time, gid, cid, mid, uid, map[]));
      scheduler.Queue(|terminations|, time);
      terminations := terminations + [mid];
      return true;
    }

    /** terminateSummon (Summon.kt:161-170): the record of the message goes, if there is one. */
    method TerminateSummon(mid: string)
      modifies state
      ensures FindSummon(old(state.summons), mid).None? ==> state.summons == old(state.summons) && state.saved == old(state.saved)
      ensures FindSummon(old(state.summons), mid).Some? ==>
                var i := FindSummon(old(state.summons), mid).value;
                state.summons == old(state.summons)[..i] + old(state.summons)[i + 1..] && state.saved == Some(state.summons)
    {
      var found := FindSummon(state.summons, mid);
      if found.Some? {
        RemoveFound(state.summons, mid);
        state.Remove(state.summons[found.value]);
      }
    }
  }
}
