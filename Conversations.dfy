/** Conversations kept per user (Mute/Services/Responses/ConversationalResponseService.cs).
    The response generators, their random draws and the final random pick are inputs:
    each generator arrives with the conversation its `TryRespond` produced, if any, and
    its two chances; the draws are the values the seeded generator would return, one per
    non-null conversation, in generator order. A conversation's `IsComplete` is a live
    property that changes as the conversation is answered; the service reads it only
    when it consults the stored entry, so that reading is an input too. */
module Conversations {
  import opened Common

  /** A conversation object, by identity. */
  datatype Conversation = Conversation(id: nat)

  /** One response generator, with the outcome of its `TryRespond` for this message. */
  datatype Generator = Generator(offer: Option<Conversation>, baseChance: real, mentionedChance: real)

  /** The chance that applies to a generator for this message. */
  function Chance(g: Generator, mentionsBot: bool): real
  {
    if mentionsBot then g.mentionedChance else g.baseChance
  }

  /** How many generators offered a conversation (and so consume a draw). */
  function Offers(gs: seq<Generator>): nat
  {
    if gs == [] then 0 else Offers(gs[..|gs| - 1]) + (if gs[|gs| - 1].offer.Some? then 1 else 0)
  }

  lemma {:induction false} OffersBounded(gs: seq<Generator>)
    ensures Offers(gs) <= |gs|
  {
    if gs != [] { OffersBounded(gs[..|gs| - 1]); }
  }

  /** The candidates: each offered conversation whose draw is below the generator's chance. */
  function Candidates(gs: seq<Generator>, mentionsBot: bool, draws: seq<real>): seq<Conversation>
    requires |draws| >= Offers(gs)
  {
    if gs == [] then []
    else
      var g := gs[|gs| - 1];
      var before := Candidates(gs[..|gs| - 1], mentionsBot, draws);
      if g.offer.Some? && draws[Offers(gs[..|gs| - 1])] < Chance(g, mentionsBot) then before + [g.offer.value]
      else before
  }

  /** Every candidate was offered by some generator whose draw fell below its chance, and
      there are never more candidates than generators. */
  lemma {:induction false} CandidatesSound(gs: seq<Generator>, mentionsBot: bool, draws: seq<real>)
    requires |draws| >= Offers(gs)
    ensures |Candidates(gs, mentionsBot, draws)| <= Offers(gs)
    ensures forall c :: c in Candidates(gs, mentionsBot, draws) ==>
      exists i :: 0 <= i < |gs| && gs[i].offer == Some(c) && Offers(gs[..i]) < |draws| && draws[Offers(gs[..i])] < Chance(gs[i], mentionsBot)
  {
    if gs != [] {
      var init := gs[..|gs| - 1];
      CandidatesSound(init, mentionsBot, draws);
      forall c | c in Candidates(gs, mentionsBot, draws)
        ensures exists i :: 0 <= i < |gs| && gs[i].offer == Some(c) && Offers(gs[..i]) < |draws| && draws[Offers(gs[..i])] < Chance(gs[i], mentionsBot)
      {
        if c in Candidates(init, mentionsBot, draws) {
          var i :| 0 <= i < |init| && init[i].offer == Some(c) && Offers(init[..i]) < |draws| && draws[Offers(init[..i])] < Chance(init[i], mentionsBot);
          assert gs[..i] == init[..i];
        } else {
          assert gs[..|gs| - 1] == init;
        }
      }
    }
  }

  /** The `foreach` of `TryCreateConversation`: collect the candidates in generator order. */
  method CollectCandidates(gs: seq<Generator>, mentionsBot: bool, draws: seq<real>) returns (candidates: seq<Conversation>)
    requires |draws| >= Offers(gs)
    ensures candidates == Candidates(gs, mentionsBot, draws)
    ensures |candidates| <= |gs|
  {
    candidates := [];
    var drawn := 0;
    var i := 0;
    while i < |gs|
      invariant 0 <= i <= |gs|
      invariant drawn == Offers(gs[..i]) <= Offers(gs)
      invariant candidates == Candidates(gs[..i], mentionsBot, draws)
    {
      assert gs[..i + 1][..i] == gs[..i];
      OffersPrefix(gs, i + 1);
      var conversation := gs[i].offer;
      if conversation.Some? {
        var rand := draws[drawn];
        drawn := drawn + 1;
        if (mentionsBot && rand < gs[i].mentionedChance) || (!mentionsBot && rand < gs[i].baseChance) {
          candidates := candidates + [conversation.value];
        }
      }
      i := i + 1;
    }
    assert gs[..i] == gs;
    CandidatesSound(gs, mentionsBot, draws);
    OffersBounded(gs);
  }

  lemma {:induction false} OffersPrefix(gs: seq<Generator>, k: nat)
    requires k <= |gs|
    ensures Offers(gs[..k]) <= Offers(gs)
    decreases |gs| - k
  {
    if k < |gs| {
      OffersPrefix(gs, k + 1);
      assert gs[..k + 1][..k] == gs[..k];
    } else {
      assert gs[..k] == gs;
    }
  }

  /** The conversation `TryCreateConversation` returns: the picked candidate, or none
      when there are no candidates. */
  function Chosen(gs: seq<Generator>, mentionsBot: bool, draws: seq<real>, pick: nat): (r: Option<Conversation>)
    requires |draws| >= Offers(gs)
    requires |Candidates(gs, mentionsBot, draws)| > 0 ==> pick < |Candidates(gs, mentionsBot, draws)|
    ensures r.None? <==> Candidates(gs, mentionsBot, draws) == []
    ensures r.Some? ==> r.value in Candidates(gs, mentionsBot, draws)
  {
    var cs := Candidates(gs, mentionsBot, draws);
    if cs == [] then None else Some(cs[pick])
  }

  /** `TryCreateConversation`: collects the candidates, then picks one of them. */
  method TryCreateConversation(gs: seq<Generator>, mentionsBot: bool, draws: seq<real>, pick: nat)
    returns (r: Option<Conversation>)
    requires |draws| >= Offers(gs)
    requires |Candidates(gs, mentionsBot, draws)| > 0 ==> pick < |Candidates(gs, mentionsBot, draws)|
    ensures r == Chosen(gs, mentionsBot, draws, pick)
  {
    var candidates := CollectCandidates(gs, mentionsBot, draws);
    if candidates == [] {
      r := None;
    } else {
      r := Some(candidates[pick]);
    }
  }

  /** The `AddOrUpdate` rule, `(c?.IsComplete ?? true) ? newConv : c`: with no entry the
      candidate is stored (even none); an entry that is none, or whose conversation now
      reports itself complete, is replaced by it; an active one is kept. */
  function KeepOrReplace(existing: Option<Option<Conversation>>, existingComplete: bool, candidate: Option<Conversation>)
    : (r: Option<Conversation>)
    ensures existing.None? ==> r == candidate
    ensures existing.Some? && (existing.value.None? || existingComplete) ==> r == candidate
    ensures existing.Some? && existing.value.Some? && !existingComplete ==> r == existing.value
  {
    match existing
    case None => candidate
    case Some(c) => if c.None? || existingComplete then candidate else c
  }

  /** The service's per-user map of conversations, keyed by user id. */
  class ConversationalResponseService {
    var conversations: map<nat, Option<Conversation>>

    constructor ()
      ensures conversations == map[]
    {
      conversations := map[];
    }

    /** `GetConversation`: the stored entry, or none. */
    function GetConversation(user: nat): (r: Option<Conversation>)
      reads this
      ensures user !in conversations ==> r.None?
      ensures user in conversations ==> r == conversations[user]
    {
      if user in conversations then conversations[user] else None
    }

    /** The user's entry as `AddOrUpdate` sees it: absent, or present (possibly null). */
    function Entry(user: nat): Option<Option<Conversation>>
      reads this
    {
      if user in conversations then Some(conversations[user]) else None
    }

    /** The stored conversation is active: present and, as read now, not complete. */
    predicate Active(user: nat, existingComplete: bool)
      reads this
    {
      GetConversation(user).Some? && !existingComplete
    }

    /** `GetOrCreateConversation`: the new candidate is computed first, then the user's
        entry is kept or replaced; no other entry changes. `existingComplete` is what the
        stored conversation's `IsComplete` reports when it is consulted. */
    method GetOrCreateConversation(user: nat, existingComplete: bool, gs: seq<Generator>, mentionsBot: bool,
                                   draws: seq<real>, pick: nat)
      returns (c: Option<Conversation>)
      requires |draws| >= Offers(gs)
      requires |Candidates(gs, mentionsBot, draws)| > 0 ==> pick < |Candidates(gs, mentionsBot, draws)|
      modifies this
      ensures c == KeepOrReplace(old(Entry(user)), existingComplete, Chosen(gs, mentionsBot, draws, pick))
      ensures conversations == old(conversations)[user := c]
      ensures old(Active(user, existingComplete)) ==> c == old(GetConversation(user))
      ensures !old(Active(user, existingComplete)) ==>
        && (c.None? <==> Candidates(gs, mentionsBot, draws) == [])
        && (c.Some? ==> c.value in Candidates(gs, mentionsBot, draws))
      ensures forall u :: u != user ==> GetConversation(u) == old(GetConversation(u))
    {
      var newConv := TryCreateConversation(gs, mentionsBot, draws, pick);
      var existing := if user in conversations then Some(conversations[user]) else None;
      c := KeepOrReplace(existing, existingComplete, newConv);
      conversations := conversations[user := c];
    }

    /** `Respond`: a reply is sent only when there is a conversation and it answers. The
        conversation's answer is an input. */
    method Respond(user: nat, existingComplete: bool, mentionedIds: set<nat>, botId: nat, gs: seq<Generator>,
                   draws: seq<real>, pick: nat, answer: Option<string>)
      returns (reply: Option<string>)
      requires |draws| >= Offers(gs)
      requires |Candidates(gs, botId in mentionedIds, draws)| > 0 ==> pick < |Candidates(gs, botId in mentionedIds, draws)|
      modifies this
      ensures conversations == old(conversations)[user := GetConversation(user)]
      ensures GetConversation(user) ==
        KeepOrReplace(old(Entry(user)), existingComplete, Chosen(gs, botId in mentionedIds, draws, pick))
      ensures reply.Some? <==> GetConversation(user).Some? && answer.Some?
      ensures reply.Some? ==> reply == answer
    {
      var mentionsBot := botId in mentionedIds;
      var c := GetOrCreateConversation(user, existingComplete, gs, mentionsBot, draws, pick);
      reply := None;
      if c.Some? {
        if answer.Some? {
          reply := answer;
        }
      }
    }
  }
}
