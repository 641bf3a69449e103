/**
 The OCPI registration handshake (CredentialsService; section 7.1.1 of OCPI 2.2.1) between
 two instances of this service: one generates token A, the other registers with it, and
 either may later rotate its token. Any remote call may fail, at any point.

 Each instance stores a profile of the other: the token it sends (credentials) and the token
 it accepts (serverCredentials). Tokens are numbers drawn from one counter: no two generated
 tokens are equal.
 */
module Credentials {
  import opened Numbers

  type Token = nat

  /** partnerProfileOCPI: the token used towards the partner, the token accepted from it, and
      the agreed version. */
  datatype Profile = Profile(outgoing: Option<Token>, incoming: Option<Token>, version: int)

  datatype Error = 
    NoProfile | AlreadyRegistered | NotRegistered | VersionMismatch | ProfileExists | CallFailed | RotationFailed

  datatype Result = Ok(token: Token) | Err(error: Error)

  /** A remote call: who is called, with which token, and whether the callee's stored profile
      accepts that token. */
  datatype Call = Call(toPeer: bool, token: Token, recognised: bool)

  /** Which remote exchanges of an operation go wrong: reading the peer's versions, the request
      on its way to the peer, the peer's callback, or the response on its way back. */
  datatype Faults = Faults(versions: bool, request: bool, callback: bool, response: bool)

  const NoFaults := Faults(false, false, false, false)

  /** Both stored profiles and the token counter after an operation. */
  datatype Outcome = Outcome(
    mine: Option<Profile>,
    theirs: Option<Profile>,
    next: Token,
    calls: seq<Call>,
    result: Result)

  predicate Accepts(stored: Option<Profile>, token: Token) {
    stored.Some? && stored.value.incoming == Some(token)
  }

  // ------------------------------------------------------------------ the receiver

  /** What the peer does with a POST or PUT, and the callback it makes. */
  datatype Answer = Answer(theirs: Option<Profile>, next: Token, calls: seq<Call>, result: Result)

  /** Storing the sender's token, calling it back, then accepting a fresh token. */
  function Exchange(theirs: Profile, mine: Option<Profile>, token: Token, next: Token, callbackFails: bool): Answer {
    var call := Call(false, token, Accepts(mine, token));
    if callbackFails || !call.recognised then Answer(Some(theirs), next, [call], Err(CallFailed))
    else Answer(Some(theirs.(outgoing := Some(token), incoming := Some(next))), next + 1, [call], Ok(next))
  }

  /** postCredentials. */
  function PostAnswer(theirs: Profile, mine: Option<Profile>, token: Token, version: int, next: Token,
                      callbackFails: bool): Answer {
    if theirs.outgoing.Some? then Answer(Some(theirs), next, [], Err(AlreadyRegistered))
    else if version != theirs.version then Answer(Some(theirs), next, [], Err(VersionMismatch))
    else Exchange(theirs, mine, token, next, callbackFails)
  }

  /** putCredentials. */
  function PutAnswer(theirs: Profile, mine: Option<Profile>, token: Token, next: Token, callbackFails: bool): Answer {
    if theirs.outgoing.None? then Answer(Some(theirs), next, [], Err(NotRegistered))
    else Exchange(theirs, mine, token, next, callbackFails)
  }

  // -------------------------------------------------------------------- the sender

  /** generateCredentialsTokenA. */
  function Generate(mine: Option<Profile>, version: int, next: Token): (Option<Profile>, Token, Result) {
    if mine.Some? then (mine, next, Err(ProfileExists))
    else (Some(Profile(None, Some(next), version)), next + 1, Ok(next))
  }

  /** The end of both operations: the request, and storing the token it returns. */
  function Conclude(mine: Profile, theirs: Option<Profile>, token: Token, next: Token, calls: seq<Call>,
                    answer: Answer, faults: Faults): Outcome {
    var call := Call(true, token, Accepts(theirs, token));
    var all := calls + [call] + answer.calls;
    if faults.request || !call.recognised then Outcome(Some(mine), theirs, next, calls + [call], Err(CallFailed))
    else if answer.result.Err? then Outcome(Some(mine), answer.theirs, answer.next, all, answer.result)
    else if faults.response then Outcome(Some(mine), answer.theirs, answer.next, all, Err(CallFailed))
    else
      Outcome(Some(mine.(outgoing := Some(answer.result.token))), answer.theirs, answer.next,
              calls + [call] + answer.calls, answer.result)
  }

  /** registerCredentialsTokenA: read the versions with token A, store it with a fresh token B,
      POST token B, and store the token C that comes back. */
  function Register(mine: Option<Profile>, theirs: Option<Profile>, tokenA: Token, version: int, next: Token,
                    faults: Faults): Outcome {
    if mine.None? then Outcome(mine, theirs, next, [], Err(NoProfile))
    else if mine.value.outgoing.Some? then Outcome(mine, theirs, next, [], Err(AlreadyRegistered))
    else if version != mine.value.version then Outcome(mine, theirs, next, [], Err(VersionMismatch))
    else
      var call := Call(true, tokenA, Accepts(theirs, tokenA));
      if faults.versions || !call.recognised then Outcome(mine, theirs, next, [call], Err(CallFailed))
      else
        var stored := mine.value.(outgoing := Some(tokenA), incoming := Some(next));
        var answer := PostAnswer(theirs.value, Some(stored), next, version, next + 1, faults.callback);
        Conclude(stored, theirs, tokenA, next + 1, [call], answer, faults)
  }

  /** regenerateCredentialsToken: read the versions, store a fresh token, PUT it, and store the
      token that comes back. It returns the fresh token, and one error for every failure. */
  function Rotate(mine: Option<Profile>, theirs: Option<Profile>, version: int, next: Token, faults: Faults): Outcome {
    if mine.None? || mine.value.outgoing.None? then Outcome(mine, theirs, next, [], Err(RotationFailed))
    else
      var token := mine.value.outgoing.value;
      var call := Call(true, token, Accepts(theirs, token));
      if faults.versions || !call.recognised || mine.value.incoming.None?
      then Outcome(mine, theirs, next, [call], Err(RotationFailed))
      else
        var stored := mine.value.(incoming := Some(next), version := version);
        var answer := PutAnswer(theirs.value, Some(stored), next, next + 1, faults.callback);
        var outcome := Conclude(stored, theirs, token, next + 1, [call], answer, faults);
        outcome.(result := if outcome.result.Ok? then Ok(next) else Err(RotationFailed))
  }

  // ---------------------------------------------------------------- the service

  class TokenSource {
    var next: Token

    constructor ()
      ensures next == 0
    {
      next := 0;
    }

    method Fresh() returns (token: Token)
      modifies this
      ensures token == old(next) && next == token + 1
    {
      token := next;
      next := next + 1;
    }
  }

  /** One instance of the service, with the profile it stores of the other. */
  class Instance {
    var stored: Option<Profile>

    constructor (stored: Option<Profile>)
      ensures this.stored == stored
    {
      this.stored := stored;
    }

    method GenerateCredentialsTokenA(tokens: TokenSource, version: int) returns (result: Result)
      modifies this, tokens
      ensures (stored, tokens.next, result) == Generate(old(stored), version, old(tokens.next))
    {
      if stored.Some? {
        return Err(ProfileExists);
      }
      var tokenA := tokens.Fresh();
      stored := Some(Profile(None, Some(tokenA), version));
      result := Ok(tokenA);
    }

    /** getVersionDetails: two reads with the same token, answered when the callee stores it. */
    method GetVersionDetails(callee: Instance, token: Token, fails: bool) returns (ok: bool)
      ensures ok <==> !fails && Accepts(callee.stored, token)
    {
      ok := !fails && callee.stored.Some? && callee.stored.value.incoming == Some(token);
    }

    method PostCredentials(caller: Instance, tokens: TokenSource, token: Token, version: int, callbackFails: bool)
      returns (result: Result)
      requires stored.Some? && caller != this
      modifies this, tokens
      ensures var answer :=
                PostAnswer(old(stored).value, caller.stored, token, version, old(tokens.next), callbackFails);
              stored == answer.theirs && tokens.next == answer.next && result == answer.result
    {
      var partner := stored.value;
      if partner.outgoing.Some? {
        return Err(AlreadyRegistered);
      }
      if version != partner.version {
        return Err(VersionMismatch);
      }
      partner := partner.(outgoing := Some(token));
      var ok := GetVersionDetails(caller, token, callbackFails);
      if !ok {
        return Err(CallFailed);
      }
      var newServerToken := tokens.Fresh();
      partner := partner.(incoming := Some(newServerToken));
      stored := Some(partner);
      result := Ok(newServerToken);
    }

    method PutCredentials(caller: Instance, tokens: TokenSource, token: Token, callbackFails: bool)
      returns (result: Result)
      requires stored.Some? && caller != this
      modifies this, tokens
      ensures var answer := PutAnswer(old(stored).value, caller.stored, token, old(tokens.next), callbackFails);
              stored == answer.theirs && tokens.next == answer.next && result == answer.result
    {
      var partner := stored.value;
      if partner.outgoing.None? {
        return Err(NotRegistered);
      }
      partner := partner.(outgoing := Some(token));
      var ok := GetVersionDetails(caller, token, callbackFails);
      if !ok {
        return Err(CallFailed);
      }
      var newServerToken := tokens.Fresh();
      partner := partner.(incoming := Some(newServerToken));
      stored := Some(partner);
      result := Ok(newServerToken);
    }

    method RegisterCredentialsTokenA(peer: Instance, tokens: TokenSource, tokenA: Token, version: int, faults: Faults)
      returns (result: Result)
      requires peer != this
      modifies this, peer, tokens
      ensures var outcome := Register(old(stored), old(peer.stored), tokenA, version, old(tokens.next), faults);
              && stored == outcome.mine && peer.stored == outcome.theirs
              && tokens.next == outcome.next && result == outcome.result
    {
      if stored.None? {
        return Err(NoProfile);
      }
      var partner := stored.value;
      if partner.outgoing.Some? {
        return Err(AlreadyRegistered);
      }
      if version != partner.version {
        return Err(VersionMismatch);
      }
      partner := partner.(outgoing := Some(tokenA));
      var ok := GetVersionDetails(peer, tokenA, faults.versions);
      if !ok {
        return Err(CallFailed);
      }
      var tokenB := tokens.Fresh();
      partner := partner.(incoming := Some(tokenB));
      stored := Some(partner);
      if faults.request {
        return Err(CallFailed);
      }
      result := peer.PostCredentials(this, tokens, tokenB, version, faults.callback);
      if result.Err? {
        return;
      }
      if faults.response {
        return Err(CallFailed);
      }
      partner := partner.(outgoing := Some(result.token));
      stored := Some(partner);
    }

    method RegenerateCredentialsToken(peer: Instance, tokens: TokenSource, version: int, faults: Faults)
      returns (result: Result)
      requires peer != this
      modifies this, peer, tokens
      ensures var outcome := Rotate(old(stored), old(peer.stored), version, old(tokens.next), faults);
              && stored == outcome.mine && peer.stored == outcome.theirs
              && tokens.next == outcome.next && result == outcome.result
    {
      if stored.None? {
        return Err(RotationFailed);
      }
      var partner := stored.value.(version := version);
      if partner.outgoing.None? {
        return Err(RotationFailed);
      }
      var ok := GetVersionDetails(peer, partner.outgoing.value, faults.versions);
      if !ok || partner.incoming.None? {
        return Err(RotationFailed);
      }
      var newCredentialsToken := tokens.Fresh();
      partner := partner.(incoming := Some(newCredentialsToken));
      stored := Some(partner);
      if faults.request {
        return Err(RotationFailed);
      }
      var answer := peer.PutCredentials(this, tokens, newCredentialsToken, faults.callback);
      if answer.Err? || faults.response {
        return Err(RotationFailed);
      }
      partner := partner.(outgoing := Some(answer.token));
      stored := Some(partner);
      result := Ok(newCredentialsToken);
    }
  }

  // ----------------------------------------------------------------- one operation

  /** What one side sends is what the other accepts. */
  predicate Linked(from: Option<Profile>, to: Option<Profile>) {
    from.Some? && from.value.outgoing.Some? && Accepts(to, from.value.outgoing.value)
  }

  predicate Agreement(a: Option<Profile>, b: Option<Profile>) {
    Linked(a, b) && Linked(b, a)
  }

  predicate Registered(stored: Option<Profile>) {
    stored.Some? && stored.value.outgoing.Some?
  }

  /** Only the first call of an operation can meet a peer that does not know its token: from
      there on, callback included, the callee has stored the token before it is used. */
  ghost predicate LaterCallsRecognised(calls: seq<Call>) {
    forall i :: 0 < i < |calls| ==> calls[i].recognised
  }

  /** A registration succeeds exactly when the caller is unregistered, the peer accepts token A
      and is unregistered, both agree on the version, and nothing fails on the way; then each
      side sends what the other accepts, and token A is accepted no more. */
  lemma RegistrationAgrees(mine: Option<Profile>, theirs: Option<Profile>, tokenA: Token, version: int, next: Token,
                           faults: Faults)
    requires tokenA < next
    ensures var o := Register(mine, theirs, tokenA, version, next, faults);
            && (o.result.Ok? <==>
                  && mine.Some? && mine.value.outgoing.None? && mine.value.version == version
                  && Accepts(theirs, tokenA) && theirs.value.outgoing.None? && theirs.value.version == version
                  && faults == NoFaults)
            && (o.result.Ok? ==>
                  && Agreement(o.mine, o.theirs) && !Accepts(o.theirs, tokenA)
                  && o.mine.value.outgoing == Some(o.result.token) && o.mine.value.version == version
                  && o.theirs.value.version == version
                  && o.calls == [Call(true, tokenA, true), Call(true, tokenA, true),
                                 Call(false, o.mine.value.incoming.value, true)])
            && LaterCallsRecognised(o.calls)
  {
  }

  /** A rotation succeeds exactly when the peer accepts the caller's token and is registered,
      the caller accepts a token itself, and nothing fails; both old tokens are then gone. */
  lemma RotationAgrees(mine: Option<Profile>, theirs: Option<Profile>, version: int, next: Token, faults: Faults)
    requires mine.Some? && mine.value.incoming.Some? ==> mine.value.incoming.value < next
    requires theirs.Some? && theirs.value.incoming.Some? ==> theirs.value.incoming.value < next
    ensures var o := Rotate(mine, theirs, version, next, faults);
            && (o.result.Ok? <==>
                  Linked(mine, theirs) && Registered(theirs) && mine.value.incoming.Some? && faults == NoFaults)
            && (o.result.Ok? ==>
                  && Agreement(o.mine, o.theirs) && o.mine.value.incoming == Some(o.result.token)
                  && o.mine.value.version == version && o.theirs.value.version == theirs.value.version
                  && !Accepts(o.theirs, theirs.value.incoming.value) && !Accepts(o.mine, mine.value.incoming.value)
                  && var token := mine.value.outgoing.value;
                     o.calls == [Call(true, token, true), Call(true, token, true), Call(false, o.result.token, true)])
            && LaterCallsRecognised(o.calls)
  {
  }

  /** What the receiver of a POST or PUT answers: a fresh token, or why not; and then its profile is
      as it was. */
  lemma ReceiverAnswers(theirs: Profile, mine: Option<Profile>, token: Token, version: int, next: Token,
                        callbackFails: bool)
    ensures var post := PostAnswer(theirs, mine, token, version, next, callbackFails);
            var put := PutAnswer(theirs, mine, token, next, callbackFails);
            var calledBack := !callbackFails && Accepts(mine, token);
            var renewed := Some(Profile(Some(token), Some(next), theirs.version));
            && post.result == (if theirs.outgoing.Some? then Err(AlreadyRegistered)
                               else if version != theirs.version then Err(VersionMismatch)
                               else if calledBack then Ok(next) else Err(CallFailed))
            && put.result == (if theirs.outgoing.None? then Err(NotRegistered)
                              else if calledBack then Ok(next) else Err(CallFailed))
            && post.theirs == (if post.result.Ok? then renewed else Some(theirs))
            && put.theirs == (if put.result.Ok? then renewed else Some(theirs))
  {
  }

  /** How a registration fails, and what it leaves behind: on its own side nothing until the
      versions are read, and then token A to send and a fresh token to accept; on the other side
      nothing, unless only the response was lost. */
  lemma RegistrationFails(mine: Option<Profile>, theirs: Option<Profile>, tokenA: Token, version: int, next: Token,
                          faults: Faults)
    ensures var o := Register(mine, theirs, tokenA, version, next, faults);
            var stored := mine.Some? && mine.value.outgoing.None? && mine.value.version == version
                          && !faults.versions && Accepts(theirs, tokenA);
            o.result.Err? ==>
              && (o.result.error == NoProfile <==> mine.None?)
              && (o.result.error == AlreadyRegistered
                  <==> Registered(mine) || (stored && !faults.request && Registered(theirs)))
              && (o.result.error == VersionMismatch
                  <==> mine.Some? && !Registered(mine)
                       && (mine.value.version != version
                           || (stored && !faults.request && !Registered(theirs) && theirs.value.version != version)))
              && (o.result.error == CallFailed
                  || o.result.error == NoProfile || o.result.error == AlreadyRegistered
                  || o.result.error == VersionMismatch)
              && o.mine == (if stored then Some(Profile(Some(tokenA), Some(next), version)) else mine)
              && (o.theirs != theirs ==> stored && faults.response && !faults.request && !faults.callback)
  {
  }

  /** How a rotation fails: with one error, leaving on its own side nothing until the versions are
      read and then the fresh token to accept, and on the other side nothing, unless only the
      response was lost. */
  lemma RotationFails(mine: Option<Profile>, theirs: Option<Profile>, version: int, next: Token, faults: Faults)
    ensures var o := Rotate(mine, theirs, version, next, faults);
            var stored := Linked(mine, theirs) && mine.value.incoming.Some? && !faults.versions;
            o.result.Err? ==>
              && o.result.error == RotationFailed
              && o.mine == (if stored then Some(mine.value.(incoming := Some(next), version := version)) else mine)
              && (o.theirs != theirs ==> stored && faults.response && !faults.request && !faults.callback)
  {
  }

  // ------------------------------------------------------------ runs of operations

  datatype Side = Left | Right

  datatype World = World(left: Option<Profile>, right: Option<Profile>, next: Token)

  datatype Operation =
    | GenerateBy(side: Side, version: int)
    | RegisterBy(side: Side, tokenA: Token, version: int, faults: Faults)
    | RotateBy(side: Side, version: int, faults: Faults)

  function Mine(w: World, side: Side): Option<Profile> {
    if side == Left then w.left else w.right
  }

  function Theirs(w: World, side: Side): Option<Profile> {
    if side == Left then w.right else w.left
  }

  function Placed(side: Side, mine: Option<Profile>, theirs: Option<Profile>, next: Token): World {
    if side == Left then World(mine, theirs, next) else World(theirs, mine, next)
  }

  function OutcomeOf(w: World, op: Operation): Outcome
    requires !op.GenerateBy?
  {
    if op.RegisterBy? then Register(Mine(w, op.side), Theirs(w, op.side), op.tokenA, op.version, w.next, op.faults)
    else Rotate(Mine(w, op.side), Theirs(w, op.side), op.version, w.next, op.faults)
  }

  function Perform(w: World, op: Operation): World {
    if op.GenerateBy? then
      var (mine, next, _) := Generate(Mine(w, op.side), op.version, w.next);
      Placed(op.side, mine, Theirs(w, op.side), next)
    else
      var o := OutcomeOf(w, op);
      Placed(op.side, o.mine, o.theirs, o.next)
  }

  function Run(w: World, ops: seq<Operation>): World {
    if ops == [] then w else Perform(Run(w, ops[..|ops| - 1]), ops[|ops| - 1])
  }

  /** Before anything happens: at most a profile with the agreed version on either side. */
  predicate Fresh(w: World) {
    forall side :: Mine(w, side).Some? ==> Mine(w, side).value.outgoing.None? && Mine(w, side).value.incoming.None?
  }

  predicate SoundProfile(stored: Option<Profile>, next: Token) {
    && (Registered(stored) ==> stored.value.incoming.Some?)
    && (stored.Some? && stored.value.incoming.Some? ==> stored.value.incoming.value < next)
  }

  /** A side that sends a token also accepts one; accepted tokens have been generated; and two
      registered sides understand each other in at least one direction. */
  predicate SoundPair(a: Option<Profile>, b: Option<Profile>, next: Token) {
    && SoundProfile(a, next) && SoundProfile(b, next)
    && (Registered(a) && Registered(b) ==> Linked(a, b) || Linked(b, a))
  }

  predicate Sound(w: World) {
    SoundPair(w.left, w.right, w.next)
  }

  lemma RegisterKeepsSound(mine: Option<Profile>, theirs: Option<Profile>, tokenA: Token, version: int, next: Token,
                           faults: Faults)
    requires SoundPair(mine, theirs, next)
    ensures var o := Register(mine, theirs, tokenA, version, next, faults); SoundPair(o.mine, o.theirs, o.next)
  {
  }

  lemma RotateKeepsSound(mine: Option<Profile>, theirs: Option<Profile>, version: int, next: Token, faults: Faults)
    requires SoundPair(mine, theirs, next)
    ensures var o := Rotate(mine, theirs, version, next, faults); SoundPair(o.mine, o.theirs, o.next)
  {
  }

  lemma PerformKeepsSound(w: World, op: Operation)
    requires Sound(w)
    ensures Sound(Perform(w, op))
  {
    match op
    case GenerateBy(_, _) =>
    case RegisterBy(side, tokenA, version, faults) =>
      RegisterKeepsSound(Mine(w, side), Theirs(w, side), tokenA, version, w.next, faults);
    case RotateBy(side, version, faults) =>
      RotateKeepsSound(Mine(w, side), Theirs(w, side), version, w.next, faults);
  }

  lemma {:induction false} SoundAlways(w: World, ops: seq<Operation>)
    requires Sound(w)
    ensures Sound(Run(w, ops))
  {
    if ops != [] {
      SoundAlways(w, ops[..|ops| - 1]);
      PerformKeepsSound(Run(w, ops[..|ops| - 1]), ops[|ops| - 1]);
    }
  }

  /** However operations are interrupted, two registered instances never lock each other out:
      one of them can rotate, and an undisturbed rotation restores agreement. */
  lemma RotationAlwaysRepairs(w: World, ops: seq<Operation>, version: int)
    requires Fresh(w)
    ensures var w' := Run(w, ops);
            Registered(w'.left) && Registered(w'.right) ==>
              exists side :: (var w'' := Perform(w', RotateBy(side, version, NoFaults)); Agreement(w''.left, w''.right))
  {
    assert Mine(w, Left) == w.left && Mine(w, Right) == w.right;
    SoundAlways(w, ops);
    var w' := Run(w, ops);
    if Registered(w'.left) && Registered(w'.right) {
      var side := if Linked(w'.left, w'.right) then Left else Right;
      assert Mine(w', Left) == w'.left && Mine(w', Right) == w'.right;
      RotationAgrees(Mine(w', side), Theirs(w', side), version, w'.next, NoFaults);
      var w'' := Perform(w', RotateBy(side, version, NoFaults));
      assert Agreement(w''.left, w''.right);
    }
  }

  /** Whenever an operation completes, both sides agree, whatever happened before. */
  lemma CompletedOperationAgrees(w: World, ops: seq<Operation>)
    requires Fresh(w) && ops != []
    requires !ops[|ops| - 1].GenerateBy?
    requires OutcomeOf(Run(w, ops[..|ops| - 1]), ops[|ops| - 1]).result.Ok?
    ensures Agreement(Run(w, ops).left, Run(w, ops).right)
  {
    assert Mine(w, Left) == w.left && Mine(w, Right) == w.right;
    SoundAlways(w, ops[..|ops| - 1]);
    var before, op := Run(w, ops[..|ops| - 1]), ops[|ops| - 1];
    assert Mine(before, Left) == before.left && Mine(before, Right) == before.right;
    if op.RegisterBy? {
      assert Accepts(Theirs(before, op.side), op.tokenA);
      RegistrationAgrees(Mine(before, op.side), Theirs(before, op.side), op.tokenA, op.version, before.next, op.faults);
    } else {
      RotationAgrees(Mine(before, op.side), Theirs(before, op.side), op.version, before.next, op.faults);
    }
  }

  /** A failed rotation between agreeing sides breaks the agreement exactly when it got as far
      as storing its new token, that is, past reading the versions. */
  lemma InterruptedRotation(mine: Option<Profile>, theirs: Option<Profile>, version: int, next: Token, faults: Faults)
    requires Agreement(mine, theirs) && mine.value.incoming.value < next && theirs.value.incoming.value < next
    requires faults != NoFaults
    ensures var o := Rotate(mine, theirs, version, next, faults);
            && (Agreement(o.mine, o.theirs) <==> faults.versions)
            && (Linked(o.mine, o.theirs) || Linked(o.theirs, o.mine))
  {
  }

  // ------------------------------------------------------------------ retired tokens

  lemma PerformDrawsFreshTokens(w: World, op: Operation, side: Side, token: Token)
    requires token < w.next && !Accepts(Mine(w, side), token)
    ensures token < Perform(w, op).next && !Accepts(Mine(Perform(w, op), side), token)
  {
  }

  /** A token that has been replaced is never accepted again, through any later operations:
      token A in particular. */
  lemma {:induction false} RetiredForGood(w: World, ops: seq<Operation>, side: Side, token: Token)
    requires token < w.next && !Accepts(Mine(w, side), token)
    ensures token < Run(w, ops).next && !Accepts(Mine(Run(w, ops), side), token)
  {
    if ops != [] {
      RetiredForGood(w, ops[..|ops| - 1], side, token);
      PerformDrawsFreshTokens(Run(w, ops[..|ops| - 1]), ops[|ops| - 1], side, token);
    }
  }

  // ------------------------------------------------------------------------- token A

  /** Token A is generated exactly once, before there is a profile; the token handed out is the one
      that is accepted, none is sent yet, and the other side's profile stays as it is. */
  lemma TokenAIsAccepted(w: World, side: Side, version: int)
    ensures var (_, _, result) := Generate(Mine(w, side), version, w.next);
            var w' := Perform(w, GenerateBy(side, version));
            && (result.Ok? <==> Mine(w, side).None?)
            && (result.Ok? ==>
                  && Accepts(Mine(w', side), result.token) && !Registered(Mine(w', side))
                  && Theirs(w', side) == Theirs(w, side) && result.token == w.next < w'.next)
            && (result.Err? ==> result == Err(ProfileExists) && w' == w)
    ensures var w' := Perform(w, GenerateBy(side, version));
            forall again :: Perform(w', GenerateBy(side, again)) == w'
  {
  }

  /** The whole handshake. One side generates token A and the other registers with it: that
      completes exactly if the other side has a profile, is unregistered, both have the same
      version, and nothing fails. Then both agree, and token A is accepted by neither side, for
      good. */
  lemma TokenARegisters(w: World, side: Side, version: int, register: Operation, later: seq<Operation>)
    requires Mine(w, side).None? && register.RegisterBy? && register.side == Other(side) && register.tokenA == w.next
    requires Mine(w, Other(side)).Some? && Mine(w, Other(side)).value.incoming.Some? ==>
               Mine(w, Other(side)).value.incoming.value < w.next
    ensures var w1 := Perform(w, GenerateBy(side, version));
            var w2, peer := Perform(w1, register), Mine(w, Other(side));
            && (OutcomeOf(w1, register).result.Ok?
                <==> peer.Some? && peer.value.outgoing.None? && peer.value.version == register.version == version
                     && register.faults == NoFaults)
            && (OutcomeOf(w1, register).result.Ok? ==>
                  && Agreement(w2.left, w2.right)
                  && !Accepts(Run(w2, later).left, w.next) && !Accepts(Run(w2, later).right, w.next))
  {
    var w1 := Perform(w, GenerateBy(side, version));
    TokenAIsAccepted(w, side, version);
    RegistrationAgrees(Mine(w1, register.side), Theirs(w1, register.side), w.next, register.version, w1.next,
                       register.faults);
    if OutcomeOf(w1, register).result.Ok? {
      RetiredForGood(Perform(w1, register), later, Left, w.next);
      RetiredForGood(Perform(w1, register), later, Right, w.next);
    }
  }

  // ------------------------------------------------------- interrupted registrations

  /** The registering side has stored token A, but the other side has stored nothing of its POST:
      the POST did not get there, or the callback failed. */
  predicate HalfRegistered(w: World, side: Side) {
    Registered(Mine(w, side)) && Linked(Mine(w, side), Theirs(w, side)) && Theirs(w, side).value.outgoing.None?
  }

  lemma HalfRegisteredStep(w: World, op: Operation, side: Side)
    requires HalfRegistered(w, side)
    requires op.RegisterBy? ==> op.side == side
    ensures HalfRegistered(Perform(w, op), side)
    ensures !op.GenerateBy? ==> OutcomeOf(w, op).result.Err?
  {
  }

  /** From there on nothing the starting side does, and no rotation by the other, ever completes:
      the side that started is already registered, the other never is. */
  lemma {:induction false} HalfRegisteredStays(w: World, ops: seq<Operation>, side: Side)
    requires HalfRegistered(w, side)
    requires forall op :: op in ops && op.RegisterBy? ==> op.side == side
    ensures HalfRegistered(Run(w, ops), side)
    ensures ops != [] && !ops[|ops| - 1].GenerateBy? ==> OutcomeOf(Run(w, ops[..|ops| - 1]), ops[|ops| - 1]).result.Err?
  {
    if ops != [] {
      HalfRegisteredStays(w, ops[..|ops| - 1], side);
      assert ops[|ops| - 1] in ops;
      HalfRegisteredStep(Run(w, ops[..|ops| - 1]), ops[|ops| - 1], side);
    }
  }

  /** A registration that nothing but a failing exchange can stop. */
  predicate Ready(w: World, side: Side, tokenA: Token, version: int) {
    && Mine(w, side).Some? && Mine(w, side).value.outgoing.None? && Mine(w, side).value.version == version
    && Accepts(Theirs(w, side), tokenA)
    && Theirs(w, side).value.outgoing.None? && Theirs(w, side).value.version == version
  }

  /** What an interrupted registration leaves, for every way in which it can be interrupted.
      Nothing at all, if the versions could not be read. The dead end above, exactly if the
      versions could be read and then the POST or the callback failed. If only the response was
      lost, two registered sides, of which the other one can rotate and restore agreement. */
  lemma InterruptedRegistration(w: World, side: Side, tokenA: Token, version: int, faults: Faults)
    requires Sound(w) && Ready(w, side, tokenA, version) && faults != NoFaults
    ensures var w' := Perform(w, RegisterBy(side, tokenA, version, faults));
            && (faults.versions ==> w' == w)
            && (HalfRegistered(w', side) <==> !faults.versions && (faults.request || faults.callback))
            && (!faults.versions && !faults.request && !faults.callback ==>
                  && Registered(Mine(w', side)) && Registered(Theirs(w', side))
                  && !Linked(Mine(w', side), Theirs(w', side))
                  && var w'' := Perform(w', RotateBy(Other(side), version, NoFaults));
                     Agreement(w''.left, w''.right))
  {
  }

  function Other(side: Side): Side {
    if side == Left then Right else Left
  }

  /** The way out of the dead end: the other side registers with token B, which fails because
      the starting side is registered, but stores token B; then it can rotate. */
  lemma OtherSideCanRepair(w: World, side: Side, version: int)
    requires Sound(w) && HalfRegistered(w, side)
    ensures Mine(w, side).value.incoming.Some?
    ensures var tokenB := Mine(w, side).value.incoming.value;
            var register := RegisterBy(Other(side), tokenB, Theirs(w, side).value.version, NoFaults);
            var w' := Perform(w, register);
            var w'' := Perform(w', RotateBy(Other(side), version, NoFaults));
            OutcomeOf(w, register).result.Err? && Agreement(w''.left, w''.right)
  {
  }
}
