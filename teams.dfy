// The Kotlin /teams command (src/main/kotlin/org/fuchss/deltabot/command/user/Teams.kt): the
// members of the caller's voice channel, sorted by lower-cased name, are drawn out one at a time
// at random positions and dealt into the requested number of teams. The random positions are an
// input: draw k takes position picks[k] mod n of the n members still left.
// As written the index is never advanced (`idx %= teams.size`), so every member lands in team 1;
// TeamsAsWritten models that loop, Deal the evidently intended round-robin.

module KotlinTeams {
  import opened Text
  import opened Sorting
  import RoundRobin
  import opened Collections

  datatype TeamUser = TeamUser(name: string, mention: string)

  /** The replies of handle (Teams.kt:28-60). */
  datatype TeamsReply = NotInVoiceChannel | NotEnoughMembers | NotEnoughTeams | TeamsAre(teams: seq<seq<TeamUser>>)

  /** Kotlin's Long.toInt(): the low 32 bits, read as a signed number. */
  function LongToInt(v: int): (r: int)
    ensures -0x8000_0000 <= r < 0x8000_0000
    ensures (v - r) % 0x1_0000_0000 == 0
    ensures -0x8000_0000 <= v < 0x8000_0000 ==> r == v
  {
    var low := v % 0x1_0000_0000;
    if low < 0x8000_0000 then low else low - 0x1_0000_0000
  }

  /** MutableList.removeAt. */
  function RemoveAt<T>(s: seq<T>, i: nat): (r: seq<T>)
    requires i < |s|
    ensures |r| == |s| - 1
    ensures multiset(r) + multiset{s[i]} == multiset(s)
  {
    assert s == s[..i] + [s[i]] + s[i + 1..];
    s[..i] + s[i + 1..]
  }

  /** The members in the order the draws take them out. */
  function Drawn<T>(s: seq<T>, picks: seq<nat>): (r: seq<T>)
    requires |picks| == |s|
    ensures multiset(r) == multiset(s)
    decreases |s|
  {
    if s == [] then [] else [s[picks[0] % |s|]] + Drawn(RemoveAt(s, picks[0] % |s|), picks[1..])
  }

  /** One draw: the member at the drawn position comes next, and the rest are drawn from what
      is left. */
  lemma DrawStep<T>(members: seq<T>, picks: seq<nat>, k: nat, done: seq<T>, rest: seq<T>)
    requires |picks| == |members| && rest != [] && k + |rest| == |picks|
    requires Drawn(members, picks) == done + Drawn(rest, picks[k..])
    ensures var p := picks[k] % |rest|;
            Drawn(members, picks) == (done + [rest[p]]) + Drawn(RemoveAt(rest, p), picks[k + 1..])
  {
    var p := picks[k] % |rest|;
    assert picks[k..][0] == picks[k] && picks[k..][1..] == picks[k + 1..];
    var later := Drawn(RemoveAt(rest, p), picks[k + 1..]);
    assert Drawn(rest, picks[k..]) == [rest[p]] + later;
    AppendAssoc(done, [rest[p]], later);
  }

  /** The teams the loop leaves as written: every member in the first one. */
  function AllInFirst<T>(drawn: seq<T>, amount: nat): (r: seq<seq<T>>)
    requires amount >= 1
    ensures |r| == amount
  {
    [drawn] + seq(amount - 1, _ => [])
  }

  lemma AllInFirstSnoc<T>(drawn: seq<T>, u: T, amount: nat)
    requires amount >= 1
    ensures AllInFirst(drawn + [u], amount) == AllInFirst(drawn, amount)[0 := drawn + [u]]
  {
  }

  /** The loop of Teams.kt:47-53 as written: `idx %= teams.size` keeps idx at 0. */
  method TeamsAsWritten(members: seq<TeamUser>, amount: nat, picks: seq<nat>) returns (teams: seq<seq<TeamUser>>)
    requires amount >= 1 && |picks| == |members|
    ensures teams == AllInFirst(Drawn(members, picks), amount)
  {
    var t := new seq<TeamUser>[amount](_ => []);
    var rest := members;
    var idx := 0;
    var k := 0;
    ghost var done: seq<TeamUser> := [];
    assert t[..] == AllInFirst(done, amount) by {
      forall i | 0 <= i < amount ensures t[..][i] == AllInFirst(done, amount)[i] {
      }
    }
    while rest != []
      invariant 0 <= k <= |members| && |rest| == |members| - k && |picks| == |members|
      invariant Drawn(members, picks) == done + Drawn(rest, picks[k..])
      invariant idx == 0
      invariant t[..] == AllInFirst(done, amount)
      decreases |rest|
    {
      var p := picks[k] % |rest|;
      DrawStep(members, picks, k, done, rest);
      var u := rest[p];
      rest := RemoveAt(rest, p);
      AllInFirstSnoc(done, u, amount);
      t[idx] := t[idx] + [u];
      idx := idx % amount;
      done := done + [u];
      k := k + 1;
    }
    assert done + Drawn(rest, picks[k..]) == done;
    teams := t[..];
  }

  /** Advancing the index modulo the team count keeps it at the draw count modulo it. */
  lemma NextIndex(k: nat, amount: nat)
    requires amount >= 1
    ensures (k % amount + 1) % amount == (k + 1) % amount
  {
    RoundRobin.DivModNext(k, amount);
    RoundRobin.ModBelow(k % amount + 1, amount);
  }

  /** The evidently intended loop: idx = (idx + 1) % teams.size deals the drawn members
      round-robin. */
  method Deal(members: seq<TeamUser>, amount: nat, picks: seq<nat>) returns (teams: seq<seq<TeamUser>>)
    requires amount >= 1 && |picks| == |members|
    ensures teams == RoundRobin.Partition(Drawn(members, picks), amount)
  {
    var t := new seq<TeamUser>[amount](_ => []);
    var rest := members;
    var idx := 0;
    var k := 0;
    ghost var done: seq<TeamUser> := [];
    assert t[..] == RoundRobin.Partition(done, amount);
    assert picks[k..] == picks;
    while rest != []
      invariant 0 <= k <= |members| && |rest| == |members| - k && |picks| == |members| && |done| == k
      invariant Drawn(members, picks) == done + Drawn(rest, picks[k..])
      invariant idx == k % amount && t.Length == amount
      invariant t[..] == RoundRobin.Partition(done, amount)
      decreases |rest|
    {
      var p := picks[k] % |rest|;
      DrawStep(members, picks, k, done, rest);
      var u := rest[p];
      rest := RemoveAt(rest, p);
      RoundRobin.PartitionSnoc(done, u, amount);
      ghost var before := t[..];
      t[idx] := t[idx] + [u];
      assert t[..] == before[idx := before[idx] + [u]];
      NextIndex(k, amount);
      idx := (idx + 1) % amount;
      done := done + [u];
      k := k + 1;
    }
    assert done + Drawn(rest, picks[k..]) == done;
    teams := t[..];
  }

  /** The finding: with at least two members and two teams, as written the second team stays
      empty, while the intended deal puts the second member drawn into it. */
  lemma SecondTeamEmptyAsWritten(drawn: seq<TeamUser>, amount: nat)
    requires |drawn| >= 2 && amount >= 2
    ensures AllInFirst(drawn, amount)[1] == []
    ensures RoundRobin.Partition(drawn, amount)[1] != []
  {
    RoundRobin.GroupAt(drawn, 1, amount);
    RoundRobin.ModBelow(1, amount);
    assert 1 / amount == 0;
  }

  /** The intended teams hold every member once, and their sizes differ by at most one. */
  lemma DealProperties(drawn: seq<TeamUser>, amount: nat, g1: nat, g2: nat)
    requires amount >= 1 && g1 < amount && g2 < amount
    ensures multiset(RoundRobin.Flatten(RoundRobin.Partition(drawn, amount))) == multiset(drawn)
    ensures |RoundRobin.Partition(drawn, amount)[g1]| <= |RoundRobin.Partition(drawn, amount)[g2]| + 1
  {
    RoundRobin.PartitionIsPermutation(drawn, amount);
    RoundRobin.Balanced(drawn, amount, g1, g2);
  }

  /** The order the members are taken in before drawing (Teams.kt:35). */
  function LowerName(u: TeamUser): string {
    Lower(u.name)
  }

  function ByLowerName(users: seq<TeamUser>): seq<TeamUser> {
    SortAsc(users, LowerName)
  }

  /** handle (Teams.kt:28-60): no voice channel, fewer than two members, or fewer than two teams
      (the option as Long.toInt(), default 2) are refused in that order; otherwise the sorted
      members are drawn and dealt (in the intended round-robin). */
  method Handle(voice: Option<seq<TeamUser>>, amountOption: Option<int>, picks: seq<nat>) returns (reply: TeamsReply)
    requires voice.Some? ==> |picks| == |voice.value|
    ensures voice.None? <==> reply == NotInVoiceChannel
    ensures voice.Some? && |voice.value| < 2 <==> reply == NotEnoughMembers
    ensures reply == NotEnoughTeams <==>
              voice.Some? && |voice.value| >= 2 && (if amountOption.Some? then LongToInt(amountOption.value) else 2) < 2
    ensures reply.TeamsAre? ==>
              var members := ByLowerName(voice.value);
              var amount := if amountOption.Some? then LongToInt(amountOption.value) else 2;
              && |members| == |voice.value| && amount >= 2
              && reply.teams == RoundRobin.Partition(Drawn(members, picks), amount)
              && multiset(RoundRobin.Flatten(reply.teams)) == multiset(voice.value)
  {
    if voice.None? {
      return NotInVoiceChannel;
    }
    var members := ByLowerName(voice.value);
    SortAscProps(voice.value, LowerName);
    assert |members| == |voice.value| by {
      assert |multiset(members)| == |multiset(voice.value)|;
    }
    if |members| < 2 {
      return NotEnoughMembers;
    }
    var amount := if amountOption.Some? then LongToInt(amountOption.value) else 2;
    if amount < 2 {
      return NotEnoughTeams;
    }
    var teams := Deal(members, amount, picks);
    RoundRobin.PartitionIsPermutation(Drawn(members, picks), amount);
    return TeamsAre(teams);
  }
}
