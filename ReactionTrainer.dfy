/** Learning sentiment from emote reactions
    (Mute.Moe/Discord/Services/ReactionSentimentTrainer.cs). The message download, the
    reaction-user download and the guild's user lookup are inputs: each reacting user
    arrives with the guild user it resolves to, if any. */
module ReactionSentimentTrainer {
  import opened Common
  import opened Sentiment

  /** The role that makes a user a teacher. */
  const TeacherRoleId: nat := 506127510740795393
  /** The most reacting users fetched for one reaction. */
  const MaxReactionUsers: nat := 128
  /** Fewer distinct users than this teach only when one of them is a teacher. */
  const MinUsers: nat := 3

  datatype GuildUser = GuildUser(id: nat, roleIds: seq<nat>)

  /** A user who reacted, with the guild user it converts to (`u as IGuildUser ?? g.GetUser(u.Id)`). */
  datatype ReactingUser = ReactingUser(id: nat, asGuildUser: Option<GuildUser>)

  /** A call of `Teach(message.Content, sentiment)`. */
  datatype Lesson = Lesson(content: string, sentiment: Sentiment)

  /** `IsTeacher`: the user holds the teacher role. */
  predicate IsTeacher(u: GuildUser)
  {
    TeacherRoleId in u.roleIds
  }

  /** The sentiment an emote stands for: Happy is checked first, then Sad, then Neutral. */
  function ClassifyEmote(name: string, happy: set<string>, sad: set<string>, neutral: set<string>): (r: Option<Sentiment>)
    ensures r == Some(Positive) <==> name in happy
    ensures r == Some(Negative) <==> name !in happy && name in sad
    ensures r == Some(Neutral) <==> name !in happy && name !in sad && name in neutral
    ensures r.None? <==> name !in happy + sad + neutral
  {
    if name in happy then Some(Positive)
    else if name in sad then Some(Negative)
    else if name in neutral then Some(Neutral)
    else None
  }

  /** The guild user of the first reactor that converts to a user with this id. */
  function FirstConverted(reactors: seq<ReactingUser>, id: nat): Option<GuildUser>
  {
    if reactors == [] then None
    else if reactors[0].asGuildUser.Some? && reactors[0].asGuildUser.value.id == id then reactors[0].asGuildUser
    else FirstConverted(reactors[1..], id)
  }

  /** The users fetched for a reaction: the first 128, converted to guild users, those
      that do not convert dropped, in the order they were fetched. */
  function ResolveUsers(reactors: seq<ReactingUser>): (r: seq<GuildUser>)
    ensures |r| <= |reactors|
    ensures forall u :: u in r <==> exists i :: 0 <= i < |reactors| && i < MaxReactionUsers && reactors[i].asGuildUser == Some(u)
    ensures forall id ::
              FirstWithId(r, id) == FirstConverted(if |reactors| <= MaxReactionUsers then reactors else reactors[..MaxReactionUsers], id)
  {
    Converted(if |reactors| <= MaxReactionUsers then reactors else reactors[..MaxReactionUsers])
  }

  /** The `Select`/`Where` pair keeps the order of the reactors: for every id, the first
      converted user with it comes from the first reactor converting to it. */
  function Converted(reactors: seq<ReactingUser>): (r: seq<GuildUser>)
    ensures |r| <= |reactors|
    ensures forall u :: u in r <==> exists i :: 0 <= i < |reactors| && reactors[i].asGuildUser == Some(u)
    ensures forall id :: FirstWithId(r, id) == FirstConverted(reactors, id)
  {
    if reactors == [] then []
    else
      var rest := Converted(reactors[1..]);
      assert forall i :: 1 <= i < |reactors| ==> reactors[i] == reactors[1..][i - 1];
      if reactors[0].asGuildUser.Some? then
        var r := [reactors[0].asGuildUser.value] + rest;
        assert r[1..] == rest;
        r
      else rest
  }

  function Ids(us: seq<GuildUser>): set<nat>
  {
    set u | u in us :: u.id
  }

  /** `GroupBy(a => a.Id).Select(a => a.First())`: one user per id, the first occurrence,
      in the order of first occurrence; ids in `seen` were already taken. */
  function DistinctFrom(us: seq<GuildUser>, seen: set<nat>): (r: seq<GuildUser>)
    ensures forall i, j :: 0 <= i < j < |r| ==> r[i].id != r[j].id
    ensures Ids(r) == Ids(us) - seen
    ensures forall x :: x in r ==> x in us && x.id !in seen
    ensures forall i :: 0 <= i < |r| ==> FirstWithId(us, r[i].id) == Some(r[i])
    decreases |us|
  {
    if us == [] then []
    else if us[0].id in seen then
      var rest := DistinctFrom(us[1..], seen);
      TailIds(us);
      FirstWithIdAfterOther(us, seen, rest);
      rest
    else
      var rest := DistinctFrom(us[1..], seen + {us[0].id});
      TailIds(us);
      FirstWithIdAfterOther(us, seen + {us[0].id}, rest);
      var r := [us[0]] + rest;
      assert r[1..] == rest;
      TailIds(r);
      r
  }

  /** The first user in `us` with id `id`. */
  function FirstWithId(us: seq<GuildUser>, id: nat): Option<GuildUser>
  {
    if us == [] then None
    else if us[0].id == id then Some(us[0])
    else FirstWithId(us[1..], id)
  }

  lemma TailIds(us: seq<GuildUser>)
    requires us != []
    ensures Ids(us) == {us[0].id} + Ids(us[1..])
  {
    assert forall u :: u in us <==> u == us[0] || u in us[1..];
  }

  /** Users kept from the tail whose id differs from the head's have the same first
      occurrence in the whole sequence. */
  lemma FirstWithIdAfterOther(us: seq<GuildUser>, seen: set<nat>, rest: seq<GuildUser>)
    requires us != [] && us[0].id in seen
    requires forall x :: x in rest ==> x.id !in seen
    requires forall i :: 0 <= i < |rest| ==> FirstWithId(us[1..], rest[i].id) == Some(rest[i])
    ensures forall i :: 0 <= i < |rest| ==> FirstWithId(us, rest[i].id) == Some(rest[i])
  {
    forall i | 0 <= i < |rest|
      ensures FirstWithId(us, rest[i].id) == Some(rest[i])
    {
      assert rest[i] in rest;
    }
  }

  /** The de-duplicated users of a reaction. */
  function DistinctById(us: seq<GuildUser>): (r: seq<GuildUser>)
    ensures |r| == |Ids(us)|
    ensures Ids(r) == Ids(us)
    ensures forall i :: 0 <= i < |r| ==> FirstWithId(us, r[i].id) == Some(r[i])
  {
    var r := DistinctFrom(us, {});
    DistinctCard(r);
    r
  }

  /** A sequence of users with pairwise different ids has as many ids as elements. */
  lemma {:induction false} DistinctCard(r: seq<GuildUser>)
    requires forall i, j :: 0 <= i < j < |r| ==> r[i].id != r[j].id
    ensures |Ids(r)| == |r|
  {
    if r != [] {
      DistinctCard(r[1..]);
      TailIds(r);
      forall u | u in r[1..]
        ensures u.id != r[0].id
      {
        var k :| 0 <= k < |r[1..]| && r[1..][k] == u;
        assert r[k + 1] == u;
      }
    }
  }

  /** `TryLearn`'s decision: at least three distinct users, or a teacher among them. */
  predicate ShouldTeach(users: seq<GuildUser>)
  {
    |users| >= MinUsers || exists u :: u in users && IsTeacher(u)
  }

  /** `OnReactionAdded` followed by `TryLearn`: the lesson taught, if any. */
  function OnReactionAdded(emote: string, happy: set<string>, sad: set<string>, neutral: set<string>,
                           content: string, reactors: seq<ReactingUser>): (r: Option<Lesson>)
    ensures r.Some? ==> r.value.content == content && Some(r.value.sentiment) == ClassifyEmote(emote, happy, sad, neutral)
  {
    match ClassifyEmote(emote, happy, sad, neutral)
    case None => None
    case Some(s) =>
      var users := DistinctById(ResolveUsers(reactors));
      if ShouldTeach(users) then Some(Lesson(content, s)) else None
  }

  /** A lesson is taught exactly when the emote has a sentiment and either at least three
      distinct ids convert to guild users among the first 128 reactors, or the first
      converted user of some id is a teacher. */
  lemma TeachIff(emote: string, happy: set<string>, sad: set<string>, neutral: set<string>,
                 content: string, reactors: seq<ReactingUser>)
    ensures var resolved := ResolveUsers(reactors);
      OnReactionAdded(emote, happy, sad, neutral, content, reactors).Some? <==>
        && ClassifyEmote(emote, happy, sad, neutral).Some?
        && (|Ids(resolved)| >= MinUsers || exists id :: id in Ids(resolved) && FirstIsTeacher(resolved, id))
  {
    TeacherAmongDistinct(ResolveUsers(reactors));
  }

  /** Some de-duplicated user is a teacher exactly when, for some id, the first user
      with that id is one. */
  lemma TeacherAmongDistinct(us: seq<GuildUser>)
    ensures (exists u :: u in DistinctById(us) && IsTeacher(u)) <==>
            (exists id :: id in Ids(us) && FirstIsTeacher(us, id))
  {
    var users := DistinctById(us);
    if u :| u in users && IsTeacher(u) {
      var i := IndexIn(users, u);
      assert FirstIsTeacher(us, users[i].id);
      IdInIds(users, i);
    }
    if id :| id in Ids(us) && FirstIsTeacher(us, id) {
      assert id in Ids(users);
      var i := IndexOfId(users, id);
      assert IsTeacher(users[i]);
      assert users[i] in users;
    }
  }

  lemma IndexIn(us: seq<GuildUser>, u: GuildUser) returns (i: nat)
    requires u in us
    ensures i < |us| && us[i] == u
  {
    i :| 0 <= i < |us| && us[i] == u;
  }

  lemma IndexOfId(us: seq<GuildUser>, id: nat) returns (i: nat)
    requires id in Ids(us)
    ensures i < |us| && us[i].id == id
  {
    var u :| u in us && u.id == id;
    i := IndexIn(us, u);
  }

  lemma IdInIds(us: seq<GuildUser>, i: nat)
    requires i < |us|
    ensures us[i].id in Ids(us)
  {
    assert us[i] in us;
  }

  /** The first user with this id holds the teacher role. */
  predicate FirstIsTeacher(us: seq<GuildUser>, id: nat)
  {
    FirstWithId(us, id).Some? && IsTeacher(FirstWithId(us, id).value)
  }
}
