/**
 Pushing an object to the partner that owns the token (BaseClientApi.broadcastToClients): a
 partner's failure never reaches the caller, which sees one answer less; a failed push to
 Gireve goes to the retry outbox.
 */
module ClientBroadcast {
  import opened Numbers

  datatype HttpMethod = Get | PutMethod | Post | PatchMethod | Delete

  /** A listed partner: whether its settings let the module's objects through, whether it is
      Gireve, and what a request to it comes to: None if it raises, otherwise the status code
      of the answer, if it has one. */
  datatype Partner = Partner(id: nat, allowed: bool, gireve: bool, response: Option<Option<int>>)

  /** What comes of a push: an exception, when the partners cannot be listed; or the answers,
      which are all the caller sees. `failed` says that a request raised, `queued` that it was
      put in the outbox. */
  datatype Push = Raised | Answered(codes: seq<Option<int>>, failed: bool, queued: bool)

  /** A request was made. */
  predicate Requested(push: Push) {
    push.Answered? && (push.codes != [] || push.failed)
  }

  predicate Selected(p: Partner, owner: nat) {
    p.id == owner && p.allowed
  }

  predicate Fails(p: Partner, owner: nat) {
    Selected(p, owner) && p.response.None?
  }

  predicate Queues(p: Partner, owner: nat, outboxWorks: bool) {
    Fails(p, owner) && p.gireve && outboxWorks
  }

  function Codes(partners: seq<Partner>, owner: nat): seq<Option<int>> {
    if partners == [] then []
    else
      var p := partners[|partners| - 1];
      Codes(partners[..|partners| - 1], owner)
      + if Selected(p, owner) && p.response.Some? then [p.response.value] else []
  }

  lemma CodesNext(partners: seq<Partner>, owner: nat, i: nat)
    requires i < |partners|
    ensures Codes(partners[..i + 1], owner)
         == Codes(partners[..i], owner)
            + if Selected(partners[i], owner) && partners[i].response.Some? then [partners[i].response.value] else []
  {
    assert partners[..i + 1][..i] == partners[..i];
  }

  /** What the partners make of a push. */
  ghost predicate Comes(push: Push, partners: Option<seq<Partner>>, owner: nat, outboxWorks: bool) {
    if partners.None? then push == Raised
    else
      && push.Answered? && push.codes == Codes(partners.value, owner)
      && (push.failed <==> exists k :: 0 <= k < |partners.value| && Fails(partners.value[k], owner))
      && (push.queued <==> exists k :: 0 <= k < |partners.value| && Queues(partners.value[k], owner, outboxWorks))
  }

  /** broadcastToClients for a session or a CDR; None stands for a list that cannot be read. */
  method BroadcastToClients(partners: Option<seq<Partner>>, owner: nat, outboxWorks: bool) returns (push: Push)
    ensures Comes(push, partners, owner, outboxWorks)
  {
    if partners.None? {
      return Raised;
    }
    var codes: seq<Option<int>>, failed, queued := [], false, false;
    var ps := partners.value;
    for i := 0 to |ps|
      invariant codes == Codes(ps[..i], owner)
      invariant failed <==> exists k :: 0 <= k < i && Fails(ps[k], owner)
      invariant queued <==> exists k :: 0 <= k < i && Queues(ps[k], owner, outboxWorks)
    {
      CodesNext(ps, owner, i);
      if ps[i].id != owner || !ps[i].allowed {
        continue;
      }
      match ps[i].response {
        case Some(code) => codes := codes + [code];
        case None =>
          failed := true;
          if ps[i].gireve && outboxWorks {
            queued := true;
          }
      }
    }
    assert ps[..|ps|] == ps;
    return Answered(codes, failed, queued);
  }

  /** What a push comes to. The owner of the token gets the request if its settings let the module
      through; its answer is the only one, and if there is none, and the owner is Gireve, the push
      is queued. Nobody else gets anything. */
  lemma OwnerIsAsked(partners: seq<Partner>, owner: nat, outboxWorks: bool, push: Push)
    requires forall i, j :: 0 <= i < j < |partners| ==> partners[i].id != partners[j].id
    requires Comes(push, Some(partners), owner, outboxWorks)
    ensures forall k :: 0 <= k < |partners| && partners[k].id == owner ==>
              push == if !partners[k].allowed then Answered([], false, false)
                      else match partners[k].response
                           case Some(code) => Answered([code], false, false)
                           case None => Answered([], true, partners[k].gireve && outboxWorks)
    ensures (forall k :: 0 <= k < |partners| ==> partners[k].id != owner) ==> push == Answered([], false, false)
  {
    OwnersCodes(partners, owner);
  }

  lemma {:induction false} OwnersCodes(partners: seq<Partner>, owner: nat)
    requires forall i, j :: 0 <= i < j < |partners| ==> partners[i].id != partners[j].id
    ensures forall k :: 0 <= k < |partners| && partners[k].id == owner ==>
              Codes(partners, owner)
              == if partners[k].allowed && partners[k].response.Some? then [partners[k].response.value] else []
    ensures (forall k :: 0 <= k < |partners| ==> partners[k].id != owner) ==> Codes(partners, owner) == []
  {
    if partners != [] {
      OwnersCodes(partners[..|partners| - 1], owner);
    }
  }

  /** Ids are unique, so the filter leaves one partner at most: there is one answer at most,
      and none where a failed request was queued. */
  lemma {:induction false} OneAnswerAtMost(partners: seq<Partner>, owner: nat)
    requires forall i, j :: 0 <= i < j < |partners| ==> partners[i].id != partners[j].id
    ensures |Codes(partners, owner)| <= 1
    ensures (exists p :: p in partners && p.id == owner && p.response.None?) ==> Codes(partners, owner) == []
    ensures (forall p :: p in partners ==> p.id != owner) ==> Codes(partners, owner) == []
  {
    if partners != [] {
      var before, p := partners[..|partners| - 1], partners[|partners| - 1];
      OneAnswerAtMost(before, owner);
      if p.id == owner {
        assert forall q :: q in before ==> q.id != owner;
      }
    }
  }
}
