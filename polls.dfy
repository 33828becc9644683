// The polls of the Kotlin bot (command/user/polls/Poll.kt and PollBase.kt): a poll keeps who
// voted for which option twice, as react2User (option -> users) and user2React (user ->
// options), and a click updates both. Poll.kt keeps the maps as data and re-serialises them
// into string fields after every change; the Poll class inside PollBase.kt keeps only the
// serialised form and adds to the front of a list (withFirst) where Poll.kt adds to the back.
// One class models both, with the serialised strings as the maps they encode. Ids are strings,
// as in the source. Discord's messages, buttons and replies are not modelled.

module Polls {
  import opened Text
  import opened Collections

  type Votes = map<string, seq<string>>

  /** `m[k] ?: emptyList()`. */
  function Get(m: Votes, k: string): seq<string> {
    if k in m then m[k] else []
  }

  /** Whether v is listed under k. */
  predicate Has(m: Votes, k: string, v: string) {
    k in m && v in m[k]
  }

  ghost predicate NoDup(m: Votes) {
    forall k :: k in m ==> Distinct(m[k])
  }

  ghost predicate NoEmpty(m: Votes) {
    forall k :: k in m ==> m[k] != []
  }

  /** The two maps describe the same votes: u is listed under r exactly when r is listed under u. */
  ghost predicate Consistent(react2User: Votes, user2React: Votes) {
    forall u, r :: Has(user2React, u, r) <==> Has(react2User, r, u)
  }

  /** `m[k] = (m[k] ?: emptyList()).withFirst(v)` (front) or `.withLast(v)`. */
  function Added(m: Votes, k: string, v: string, front: bool): (r: Votes)
    ensures r.Keys == m.Keys + {k}
    ensures forall k2, v2 :: Has(r, k2, v2) <==> Has(m, k2, v2) || (k2 == k && v2 == v)
  {
    m[k := if front then WithFirst(Get(m, k), v) else Get(m, k) + [v]]
  }

  /** Adding a value that is not listed yet keeps the lists free of duplicates. */
  lemma AddedNoDup(m: Votes, k: string, v: string, front: bool)
    requires NoDup(m) && !Has(m, k, v)
    ensures NoDup(Added(m, k, v, front))
  {
    var l := Get(m, k);
    var n := if front then WithFirst(l, v) else l + [v];
    assert v !in l;
    assert Distinct(n) by {
      forall i, j | 0 <= i < j < |n| ensures n[i] != n[j] {
        if front {
          if i == 0 {
            assert n[j] == l[j - 1];
          } else {
            assert n[i] == l[i - 1] && n[j] == l[j - 1];
          }
        } else if j == |l| {
          assert n[i] == l[i];
        }
      }
    }
  }

  /** `m[k] = (m[k] ?: emptyList()).without(v)`: one copy of v goes from k's list, and k is
      left with a list even when it had none or it becomes empty. */
  function Removed(m: Votes, k: string, v: string): (r: Votes)
    ensures r.Keys == m.Keys + {k}
    ensures forall k2, v2 :: Has(r, k2, v2) ==> Has(m, k2, v2)
  {
    m[k := RemoveFirst(Get(m, k), v)]
  }

  /** Without duplicates, the removal takes away exactly the pair (k, v). */
  lemma RemovedExactly(m: Votes, k: string, v: string)
    requires NoDup(m)
    ensures NoDup(Removed(m, k, v))
    ensures forall k2, v2 :: Has(Removed(m, k, v), k2, v2) <==> Has(m, k2, v2) && !(k2 == k && v2 == v)
  {
    RemoveFirstDistinct(Get(m, k), v);
  }

  /** `cleanup`: the keys mapped to an empty list go, nothing else changes. */
  function Cleaned(m: Votes): (r: Votes)
    ensures r.Keys == set k | k in m && m[k] != []
    ensures forall k :: k in r ==> r[k] == m[k]
  {
    map k | k in m && m[k] != [] :: m[k]
  }

  /** Cleaning keeps every vote and leaves no empty list. */
  lemma CleanedVotes(m: Votes)
    ensures forall k, v :: Has(Cleaned(m), k, v) <==> Has(m, k, v)
    ensures NoEmpty(Cleaned(m))
    ensures NoDup(m) ==> NoDup(Cleaned(m))
  {
  }

  class Poll {
    /** The owner's id. */
    const uid: string
    const onlyOneOption: bool
    /** True for the Poll of PollBase.kt (withFirst), false for Poll.kt (withLast). */
    const newestFirst: bool
    var react2User: Votes
    var user2React: Votes
    /** react2UserString and user2ReactString, as the maps they encode. */
    var react2UserString: Votes
    var user2ReactString: Votes

    /** The string fields encode the maps. */
    predicate Synced()
      reads this
    {
      react2UserString == react2User && user2ReactString == user2React
    }

    ghost predicate Inv()
      reads this
    {
      Consistent(react2User, user2React) && NoDup(react2User) && NoDup(user2React)
    }

    /** A new poll (Poll.kt:52-71, PollBase.kt:272-281) has no votes. */
    constructor(uid: string, onlyOneOption: bool, newestFirst: bool)
      ensures this.uid == uid && this.onlyOneOption == onlyOneOption && this.newestFirst == newestFirst
      ensures react2User == map[] && user2React == map[] && Synced() && Inv()
    {
      this.uid := uid;
      this.onlyOneOption := onlyOneOption;
      this.newestFirst := newestFirst;
      react2User := map[];
      user2React := map[];
      react2UserString := map[];
      user2ReactString := map[];
    }

    /** syncUser2React2UserData (Poll.kt:141-144). */
    method Sync()
      modifies this
      ensures Synced() && react2User == old(react2User) && user2React == old(user2React)
    {
      user2ReactString := user2React;
      react2UserString := react2User;
    }

    /** addReact2User (Poll.kt:92-98, PollBase.kt:294-298). */
    method AddReact2User(react: string, u: string)
      modifies this
      ensures react2User == Added(old(react2User), react, u, newestFirst)
      ensures user2React == old(user2React) && Synced()
    {
      react2User := Added(react2User, react, u, newestFirst);
      Sync();
    }

    /** addUser2React (Poll.kt:100-106, PollBase.kt:300-304). */
    method AddUser2React(u: string, react: string)
      modifies this
      ensures user2React == Added(old(user2React), u, react, newestFirst)
      ensures react2User == old(react2User) && Synced()
    {
      user2React := Added(user2React, u, react, newestFirst);
      Sync();
    }

    /** removeReact2User (Poll.kt:108-114, PollBase.kt:306-310). */
    method RemoveReact2User(react: string, u: string)
      modifies this
      ensures react2User == Removed(old(react2User), react, u)
      ensures user2React == old(user2React) && Synced()
    {
      react2User := Removed(react2User, react, u);
      Sync();
    }

    /** removeUser2React(uid) (Poll.kt:116-119, PollBase.kt:312-316) removes the key itself. */
    method RemoveUser(u: string)
      modifies this
      ensures user2React == old(user2React) - {u}
      ensures react2User == old(react2User) && Synced()
    {
      user2React := user2React - {u};
      Sync();
    }

    /** removeUser2React(uid, react) (Poll.kt:121-127, PollBase.kt:318-322). */
    method RemoveUser2React(u: string, react: string)
      modifies this
      ensures user2React == Removed(old(user2React), u, react)
      ensures react2User == old(react2User) && Synced()
    {
      user2React := Removed(user2React, u, react);
      Sync();
    }

    /** setUser2React (Poll.kt:129-135, PollBase.kt:324-328). */
    method SetUser2React(u: string, reactions: seq<string>)
      modifies this
      ensures user2React == old(user2React)[u := reactions]
      ensures react2User == old(react2User) && Synced()
    {
      user2React := user2React[u := reactions];
      Sync();
    }

    /** cleanup (Poll.kt:83-90, PollBase.kt:287-292). */
    method Cleanup()
      modifies this
      ensures user2React == Cleaned(old(user2React)) && react2User == Cleaned(old(react2User))
      ensures Synced()
    {
      user2React := Cleaned(user2React);
      react2User := Cleaned(react2User);
      Sync();
    }
  }

  /** The votes after u clicked button b: other users keep theirs; with one option allowed u
      ends with b alone, or with nothing when b was u's vote; with several, only b flips. */
  predicate Clicked(user2React: Votes, u: string, b: string, onlyOne: bool, user: string, r: string) {
    if user != u then Has(user2React, user, r)
    else if onlyOne then r == b && !Has(user2React, u, b)
    else if r == b then !Has(user2React, u, b)
    else Has(user2React, u, r)
  }

  /** With one option allowed a user holds at most one vote after a click, and clicking the
      current vote again withdraws it. */
  lemma SingleOptionClick(user2React: Votes, u: string, b: string)
    ensures forall r1, r2 :: Clicked(user2React, u, b, true, u, r1) && Clicked(user2React, u, b, true, u, r2) ==> r1 == r2
    ensures Has(user2React, u, b) ==> forall r :: !Clicked(user2React, u, b, true, u, r)
    ensures !Has(user2React, u, b) ==> Clicked(user2React, u, b, true, u, b)
  {
  }

  /** With several options allowed a click flips exactly the clicked option of the clicking user. */
  lemma MultiOptionClick(user2React: Votes, u: string, b: string)
    ensures Clicked(user2React, u, b, false, u, b) <==> !Has(user2React, u, b)
    ensures forall user, r :: (user, r) != (u, b) ==> (Clicked(user2React, u, b, false, user, r) <==> Has(user2React, user, r))
  {
  }

  /** updateUser (PollBase.kt:116-141): both maps change by the click, stay consistent and
      without duplicates, and no list is left empty. */
  method UpdateUser(u: string, b: string, data: Poll)
    requires data.Inv()
    modifies data
    ensures data.Inv() && data.Synced()
    ensures NoEmpty(data.react2User) && NoEmpty(data.user2React)
    ensures forall user, r :: Has(data.user2React, user, r) <==> Clicked(old(data.user2React), u, b, data.onlyOneOption, user, r)
  {
    if data.onlyOneOption {
      ClickOnlyOption(u, b, data);
    } else {
      ClickOneOfMany(u, b, data);
    }
    CleanedVotes(data.user2React);
    CleanedVotes(data.react2User);
    data.Cleanup();
  }

  /** PollBase.kt:119-127: every vote of u goes from both maps; unless b was among them, b
      becomes u's only vote. */
  method ClickOnlyOption(u: string, b: string, data: Poll)
    requires data.Inv()
    modifies data
    ensures data.Inv() && data.Synced()
    ensures forall user, r :: Has(data.user2React, user, r) <==> Clicked(old(data.user2React), u, b, true, user, r)
  {
    var reactions := Get(data.user2React, u);
    ghost var u2r := data.user2React;
    ghost var r2u := data.react2User;
    var i := 0;
    while i < |reactions|
      invariant 0 <= i <= |reactions|
      invariant data.user2React == u2r && NoDup(data.react2User)
      invariant forall r, v :: Has(data.react2User, r, v) <==> Has(r2u, r, v) && !(v == u && r in reactions[..i])
    {
      RemovedExactly(data.react2User, reactions[i], u);
      assert reactions[..i + 1] == reactions[..i] + [reactions[i]];
      data.RemoveReact2User(reactions[i], u);
      i := i + 1;
    }
    assert reactions[..i] == reactions;
    data.RemoveUser(u);
    assert forall r :: !Has(data.react2User, r, u);
    if b !in reactions {
      data.SetUser2React(u, [b]);
      AddedNoDup(data.react2User, b, u, data.newestFirst);
      data.AddReact2User(b, u);
    }
  }

  /** PollBase.kt:128-139: the pair (u, b) is removed from both maps when u voted b, and added
      to both otherwise. */
  method ClickOneOfMany(u: string, b: string, data: Poll)
    requires data.Inv()
    modifies data
    ensures data.Inv() && data.Synced()
    ensures forall user, r :: Has(data.user2React, user, r) <==> Clicked(old(data.user2React), u, b, false, user, r)
  {
    var reactions := Get(data.user2React, u);
    if b in reactions {
      RemovedExactly(data.user2React, u, b);
      data.RemoveUser2React(u, b);
      RemovedExactly(data.react2User, b, u);
      data.RemoveReact2User(b, u);
    } else {
      AddedNoDup(data.user2React, u, b, data.newestFirst);
      data.AddUser2React(u, b);
      AddedNoDup(data.react2User, b, u, data.newestFirst);
      data.AddReact2User(b, u);
    }
  }

  // ---------------------------------------------------------------------------
  // PollBase

  /** The names of the finish and delete buttons: the code points of :octagonal_sign: and
      :put_litter_in_its_place: (PollBase.kt:35-36). */
  const FinishEmoji := "\U{1F6D1}"
  const DeleteEmoji := "\U{1F6AE}"

  /** What a click on a poll's button does. */
  datatype ClickOutcome = Terminated | Deleted | NotOwner | Voted

  class PollBase {
    /** `polls`, and the polls stored in the database. */
    var polls: set<Poll>
    var stored: set<Poll>

    constructor()
      ensures polls == {} && stored == {}
    {
      polls := {};
      stored := {};
    }

    /** persistPoll (PollBase.kt:228-231). */
    method PersistPoll(p: Poll)
      modifies this
      ensures polls == old(polls) + {p} && stored == old(stored) + {p}
    {
      polls := polls + {p};
      stored := stored + {p};
    }

    /** removePoll (PollBase.kt:233-238): null changes nothing. */
    method RemovePoll(p: Poll?)
      modifies this
      ensures p == null ==> polls == old(polls) && stored == old(stored)
      ensures p != null ==> polls == old(polls) - {p} && stored == old(stored) - {p}
    {
      if p == null {
        return;
      }
      polls := polls - {p};
      stored := stored - {p};
    }

    /** handleButtonEvent (PollBase.kt:87-114) for a click of user `clicker` on button b of poll
        p: finish and delete act only for the owner; any other button is a vote. Terminating
        removes the poll (PollBase.kt:202-205). */
    method HandleButtonEvent(p: Poll, clicker: string, b: string) returns (outcome: ClickOutcome)
      requires p.Inv()
      modifies this, p
      ensures p.Inv()
      ensures b == FinishEmoji ==> outcome == (if clicker == p.uid then Terminated else NotOwner)
      ensures b == DeleteEmoji ==> outcome == (if clicker == p.uid then Deleted else NotOwner)
      ensures b != FinishEmoji && b != DeleteEmoji ==> outcome == Voted
      ensures outcome == NotOwner ==> (polls == old(polls) && stored == old(stored)
                                       && p.user2React == old(p.user2React) && p.react2User == old(p.react2User))
      ensures outcome == Terminated || outcome == Deleted ==>
                polls == old(polls) - {p} && stored == old(stored) - {p}
                && p.user2React == old(p.user2React) && p.react2User == old(p.react2User)
      ensures outcome == Voted ==>
                polls == old(polls) + {p} && stored == old(stored) + {p}
                && forall user, r :: Has(p.user2React, user, r) <==> Clicked(old(p.user2React), clicker, b, p.onlyOneOption, user, r)
    {
      if b == FinishEmoji {
        if clicker != p.uid {
          return NotOwner;
        }
        RemovePoll(p);
        return Terminated;
      }
      if b == DeleteEmoji {
        if clicker != p.uid {
          return NotOwner;
        }
        RemovePoll(p);
        return Deleted;
      }
      UpdateUser(clicker, b, p);
      PersistPoll(p);
      return Voted;
    }
  }

  /** A text longer than all the given ones, so none of them. */
  function Fresh(used: seq<string>): (e: string)
    ensures |e| >= 1 && forall k :: 0 <= k < |used| ==> |used[k]| < |e|
  {
    if used == [] then "x"
    else
      var e := Fresh(used[1..]);
      assert forall k :: 1 <= k < |used| ==> used[k] == used[1..][k - 1];
      if |e| > |used[0]| then e else e + used[0]
  }

  /** getOptions (PollBase.kt:181-199): one emoji per option, in order, each different from
      the finish and delete emojis and from the emojis given before. The emoji drawn is an
      arbitrary one not used yet. */
  method GetOptions(options: seq<string>) returns (r: seq<(string, string)>)
    ensures |r| == |options|
    ensures forall i :: 0 <= i < |r| ==> r[i].1 == options[i]
    ensures forall i :: 0 <= i < |r| ==> r[i].0 != FinishEmoji && r[i].0 != DeleteEmoji
    ensures forall i, j :: 0 <= i < j < |r| ==> r[i].0 != r[j].0
  {
    var used := [FinishEmoji, DeleteEmoji];
    r := [];
    var i := 0;
    while i < |options|
      invariant 0 <= i <= |options| && |r| == i
      invariant used == [FinishEmoji, DeleteEmoji] + Keys(r)
      invariant forall k :: 0 <= k < i ==> r[k].1 == options[k]
      invariant forall k :: 0 <= k < i ==> r[k].0 != FinishEmoji && r[k].0 != DeleteEmoji
      invariant forall k, l :: 0 <= k < l < i ==> r[k].0 != r[l].0
    {
      assert Fresh(used) !in used;
      var e :| e !in used;
      NewEmojiStep(r, e, options[i]);
      r := r + [(e, options[i])];
      used := used + [e];
      i := i + 1;
    }
  }

  /** An emoji not used yet keeps the emojis apart from the finish and delete emojis and from
      each other. */
  lemma NewEmojiStep(r: seq<(string, string)>, e: string, o: string)
    requires forall k :: 0 <= k < |r| ==> r[k].0 != FinishEmoji && r[k].0 != DeleteEmoji
    requires forall k, l :: 0 <= k < l < |r| ==> r[k].0 != r[l].0
    requires e !in [FinishEmoji, DeleteEmoji] + Keys(r)
    ensures var r2 := r + [(e, o)];
            && Keys(r2) == Keys(r) + [e]
            && (forall k :: 0 <= k < |r2| ==> r2[k].0 != FinishEmoji && r2[k].0 != DeleteEmoji)
            && (forall k, l :: 0 <= k < l < |r2| ==> r2[k].0 != r2[l].0)
  {
    var used := [FinishEmoji, DeleteEmoji] + Keys(r);
    assert forall k :: 0 <= k < |r| ==> r[k].0 == used[k + 2];
    assert e != used[0] && e != used[1];
  }
}
