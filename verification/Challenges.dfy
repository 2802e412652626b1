/**
 * Challenges, sessions and session receipts of the reference relying party
 * (apps/reference-rp/worker/reference-rp-state.ts): `#issueChallenge`, `#startSession`,
 * `#commitStartedSession` and `#endSession`. A session start reads the challenge early, waits for proofs and
 * lifecycle checks, and commits later. Random identifiers do not repeat.
 */
module Challenges {
  import opened Common

  const CHALLENGE_TTL_SECONDS := 60
  const SESSION_TTL_SECONDS := 300
  const MAX_OUTSTANDING_CHALLENGES := 512
  const MAX_TOTAL_CHALLENGES := 2048

  datatype Binding = Binding(nonceHash: string, action: string, resource: string, contextHash: string,
                             protocols: string)

  datatype Challenge = Challenge(binding: Binding, expiresAt: nat, consumedAt: Option<nat>)

  /** Whose key made the proof: the identity's root key, or a device under an authorization. */
  datatype Signer = RootSigner | DeviceSigner(deviceId: string, authorizationId: string)

  datatype Session = Session(subject: string, expiresAt: nat, proofHash: string, signer: Signer)

  datatype Receipt = Receipt(operation: string, resource: string, subject: string, proofHash: string, acceptedAt: nat)

  datatype Tables = Tables(
    challenges: map<string, Challenge>,
    sessions: map<string, Session>,
    receipts: map<string, Receipt>)

  const EMPTY := Tables(map[], map[], map[])

  /** `#assertChallengeUsable` */
  predicate Usable(c: Challenge, now: nat) {
    c.consumedAt.None? && now < c.expiresAt
  }

  function Unexpired(challenges: map<string, Challenge>, now: nat): map<string, Challenge> {
    map id | id in challenges && now < challenges[id].expiresAt :: challenges[id]
  }

  function Outstanding(challenges: map<string, Challenge>): set<string> {
    set id | id in challenges && challenges[id].consumedAt.None?
  }

  predicate AtCapacity(challenges: map<string, Challenge>) {
    |challenges| >= MAX_TOTAL_CHALLENGES || |Outstanding(challenges)| >= MAX_OUTSTANDING_CHALLENGES
  }

  /** The transaction of `#issueChallenge`; None when it is refused and rolled back. */
  function Issue(t: Tables, id: string, binding: Binding, now: nat): Option<Tables> {
    var kept := Unexpired(t.challenges, now);
    if AtCapacity(kept) || id in kept
       || exists other :: other in kept && kept[other].binding.nonceHash == binding.nonceHash then None
    else Some(t.(challenges := kept[id := Challenge(binding, now + CHALLENGE_TTL_SECONDS, None)]))
  }

  /** What a session start carries from its early read to its commit. */
  datatype Prepared = Prepared(
    challengeId: string,
    expected: Binding,
    subject: string,
    proofHash: string,
    signer: Signer,
    tokenHash: string,
    receiptId: string)

  predicate ExpiredSession(s: Session, now: nat) {
    s.expiresAt <= now
  }

  /** `#commitStartedSession`; None when it throws, and then nothing is changed. */
  function CommitStart(t: Tables, p: Prepared, now: nat): Option<Tables> {
    if p.challengeId !in t.challenges then None
    else
      var current := t.challenges[p.challengeId];
      if !Usable(current, now) || current.binding != p.expected || p.receiptId in t.receipts then None
      else
        var kept := map token | token in t.sessions && !ExpiredSession(t.sessions[token], now) :: t.sessions[token];
        if p.tokenHash in kept then None
        else
          Some(Tables(
            t.challenges[p.challengeId := current.(consumedAt := Some(now))],
            kept[p.tokenHash := Session(p.subject, now + SESSION_TTL_SECONDS, p.proofHash, p.signer)],
            t.receipts[p.receiptId :=
                       Receipt(current.binding.action, current.binding.resource, p.subject, p.proofHash, now)]))
  }

  // ----- Runs

  datatype Start = Start(challengeId: string, at: nat, tokenHash: string, receiptId: string)

  datatype World = World(
    tables: Tables,
    prepared: set<Prepared>,
    // history: the expiry of every challenge ever issued, and the session starts that committed
    issued: map<string, nat>,
    starts: seq<Start>)

  const INITIAL := World(EMPTY, {}, map[], [])

  datatype Action =
    | IssueChallenge(id: string, binding: Binding, now: nat)
    | BeginStart(request: Prepared, verified: bool, now: nat)
    | FinishStart(request: Prepared, now: nat)
    | EndSession(tokenHash: string)
    | Restart

  function Apply(w: World, action: Action): World {
    match action
    case IssueChallenge(id, binding, now) =>
      if id in w.issued then w
      else (match Issue(w.tables, id, binding, now)
            case None => w
            case Some(t) => w.(tables := t, issued := w.issued[id := now + CHALLENGE_TTL_SECONDS]))
    case BeginStart(request, verified, now) =>
      if request.challengeId in w.tables.challenges && Usable(w.tables.challenges[request.challengeId], now)
         && w.tables.challenges[request.challengeId].binding == request.expected && verified
      then w.(prepared := w.prepared + {request}) else w
    case FinishStart(request, now) =>
      if request !in w.prepared then w
      else (match CommitStart(w.tables, request, now)
            case None => w
            case Some(t) =>
              w.(tables := t,
                 starts := w.starts + [Start(request.challengeId, now, request.tokenHash, request.receiptId)]))
    case EndSession(tokenHash) => w.(tables := w.tables.(sessions := w.tables.sessions - {tokenHash}))
    case Restart => w.(prepared := {})
  }

  function Run(w: World, actions: seq<Action>): World
    decreases |actions|
  {
    if actions == [] then w else Run(Apply(w, actions[0]), actions[1..])
  }

  // ----- Invariant

  ghost predicate ChallengesOk(w: World) {
    && (forall id :: id in w.tables.challenges ==> id in w.issued && w.issued[id] == w.tables.challenges[id].expiresAt)
    && (forall id :: id in Outstanding(w.tables.challenges) ==>
          forall start :: start in w.starts ==> start.challengeId != id)
    && |w.tables.challenges| <= MAX_TOTAL_CHALLENGES && |Outstanding(w.tables.challenges)| <= MAX_OUTSTANDING_CHALLENGES
  }

  ghost predicate StartsOk(w: World) {
    && (forall start :: start in w.starts ==> start.challengeId in w.issued && start.at < w.issued[start.challengeId])
    && (forall i, j :: 0 <= i < j < |w.starts| ==>
          w.starts[i].challengeId != w.starts[j].challengeId && w.starts[i].receiptId != w.starts[j].receiptId)
    && (forall id :: id in w.tables.receipts <==> exists start :: start in w.starts && start.receiptId == id)
    && (forall token :: token in w.tables.sessions ==> exists start :: start in w.starts && start.tokenHash == token)
  }

  ghost predicate Inv(w: World) {
    ChallengesOk(w) && StartsOk(w)
  }

  lemma OneMore(challenges: map<string, Challenge>, id: string, c: Challenge)
    requires id !in challenges && c.consumedAt.None?
    ensures |challenges[id := c]| == |challenges| + 1
    ensures |Outstanding(challenges[id := c])| == |Outstanding(challenges)| + 1
  {
    assert challenges[id := c].Keys == challenges.Keys + {id};
    assert Outstanding(challenges[id := c]) == Outstanding(challenges) + {id};
  }

  lemma IssueKeepsLimits(t: Tables, id: string, binding: Binding, now: nat)
    requires Issue(t, id, binding, now).Some?
    ensures var challenges := Issue(t, id, binding, now).value.challenges;
            |challenges| <= MAX_TOTAL_CHALLENGES && |Outstanding(challenges)| <= MAX_OUTSTANDING_CHALLENGES
  {
    OneMore(Unexpired(t.challenges, now), id, Challenge(binding, now + CHALLENGE_TTL_SECONDS, None));
  }

  lemma IssueKeeps(w: World, id: string, binding: Binding, now: nat)
    requires Inv(w)
    ensures Inv(Apply(w, IssueChallenge(id, binding, now)))
  {
    if id !in w.issued && Issue(w.tables, id, binding, now).Some? {
      IssueKeepsLimits(w.tables, id, binding, now);
      var challenges := Issue(w.tables, id, binding, now).value.challenges;
      forall other | other in Outstanding(challenges) && other != id
        ensures other in Outstanding(w.tables.challenges)
      {
      }
    }
  }

  lemma CommitKeepsLimits(t: Tables, p: Prepared, now: nat)
    requires CommitStart(t, p, now).Some?
    ensures var challenges := CommitStart(t, p, now).value.challenges;
            |challenges| == |t.challenges| && Outstanding(challenges) == Outstanding(t.challenges) - {p.challengeId}
            && |Outstanding(challenges)| <= |Outstanding(t.challenges)|
  {
    var challenges := CommitStart(t, p, now).value.challenges;
    assert challenges.Keys == t.challenges.Keys;
    assert Outstanding(challenges) == Outstanding(t.challenges) - {p.challengeId};
  }

  lemma FinishKeepsChallenges(w: World, p: Prepared, now: nat)
    requires Inv(w)
    ensures ChallengesOk(Apply(w, FinishStart(p, now)))
  {
    if p in w.prepared && CommitStart(w.tables, p, now).Some? {
      CommitKeepsLimits(w.tables, p, now);
    }
  }

  lemma FinishKeepsStarts(w: World, p: Prepared, now: nat)
    requires Inv(w)
    ensures StartsOk(Apply(w, FinishStart(p, now)))
  {
    if p in w.prepared && CommitStart(w.tables, p, now).Some? {
      var w' := Apply(w, FinishStart(p, now));
      var start := Start(p.challengeId, now, p.tokenHash, p.receiptId);
      assert p.challengeId in Outstanding(w.tables.challenges);
      assert forall other :: other in w'.starts <==> other in w.starts || other == start;
      forall i, j | 0 <= i < j < |w'.starts|
        ensures w'.starts[i].challengeId != w'.starts[j].challengeId && w'.starts[i].receiptId != w'.starts[j].receiptId
      {
        assert w'.starts[i] in w.starts;
      }
    }
  }

  lemma ApplyKeeps(w: World, action: Action)
    requires Inv(w)
    ensures Inv(Apply(w, action)) && w.starts <= Apply(w, action).starts
  {
    match action
    case IssueChallenge(id, binding, now) => IssueKeeps(w, id, binding, now);
    case FinishStart(p, now) =>
      FinishKeepsChallenges(w, p, now);
      FinishKeepsStarts(w, p, now);
    case _ =>
  }

  lemma {:induction false} RunKeeps(w: World, actions: seq<Action>)
    requires Inv(w)
    ensures Inv(Run(w, actions)) && w.starts <= Run(w, actions).starts
    decreases |actions|
  {
    if actions != [] {
      ApplyKeeps(w, actions[0]);
      RunKeeps(Apply(w, actions[0]), actions[1..]);
    }
  }

  /**
   * Single use: over every interleaving of early reads and late commits, and whatever the clocks read, each
   * challenge starts at most one session and has at most one receipt, never at or after its expiry; every receipt
   * and every session comes from such a start; and the table never exceeds its two limits.
   */
  lemma {:induction false} SingleUse(actions: seq<Action>)
    ensures var w := Run(INITIAL, actions);
            && (forall i, j :: 0 <= i < j < |w.starts| ==> w.starts[i].challengeId != w.starts[j].challengeId)
            && (forall start :: start in w.starts ==>
                  start.challengeId in w.issued && start.at < w.issued[start.challengeId])
            && (forall id :: id in w.tables.receipts <==> exists start :: start in w.starts && start.receiptId == id)
            && (forall token :: token in w.tables.sessions ==>
                  exists start :: start in w.starts && start.tokenHash == token)
            && |w.tables.challenges| <= 2048
            && |set id | id in w.tables.challenges && w.tables.challenges[id].consumedAt.None?| <= 512
  {
    assert Outstanding(EMPTY.challenges) == {};
    RunKeeps(INITIAL, actions);
  }

  // ----- Where sessions and receipts come from

  /** A challenge was issued with this binding, for a minute. */
  ghost predicate Issued(actions: seq<Action>, id: string, binding: Binding, expiresAt: nat) {
    exists action :: action in actions && action.IssueChallenge? && action.id == id && action.binding == binding
                     && action.now + 60 == expiresAt
  }

  /** The request's proof was verified, on a challenge that had been issued with the binding it expects. */
  ghost predicate WasVerified(actions: seq<Action>, request: Prepared) {
    && (exists action :: action in actions && action.BeginStart? && action.verified && action.request == request)
    && exists expiresAt :: Issued(actions, request.challengeId, request.expected, expiresAt)
  }

  /** A start of the run made this session: it has the request's subject, proof and signer and lasts five minutes. */
  ghost predicate SessionFrom(actions: seq<Action>, token: string, session: Session) {
    exists action :: action in actions && action.FinishStart? && WasVerified(actions, action.request)
                     && action.request.tokenHash == token
                     && session == Session(action.request.subject, action.now + 300, action.request.proofHash,
                                           action.request.signer)
  }

  /** A start of the run left this receipt: the action and resource of its challenge, its subject and its proof. */
  ghost predicate ReceiptFrom(actions: seq<Action>, id: string, receipt: Receipt) {
    exists action :: action in actions && action.FinishStart? && WasVerified(actions, action.request)
                     && action.request.receiptId == id
                     && receipt == Receipt(action.request.expected.action, action.request.expected.resource,
                                           action.request.subject, action.request.proofHash, action.now)
  }

  ghost predicate AllVerified(w: World, actions: seq<Action>) {
    && (forall id :: id in w.tables.challenges ==>
          Issued(actions, id, w.tables.challenges[id].binding, w.tables.challenges[id].expiresAt))
    && (forall request :: request in w.prepared ==> WasVerified(actions, request))
    && (forall token :: token in w.tables.sessions ==> SessionFrom(actions, token, w.tables.sessions[token]))
    && (forall id :: id in w.tables.receipts ==> ReceiptFrom(actions, id, w.tables.receipts[id]))
  }

  lemma StillIssued(actions: seq<Action>, action: Action, id: string, binding: Binding, expiresAt: nat)
    requires Issued(actions, id, binding, expiresAt)
    ensures Issued(actions + [action], id, binding, expiresAt)
  {
    var issue :| issue in actions && issue.IssueChallenge? && issue.id == id && issue.binding == binding
                 && issue.now + 60 == expiresAt;
    assert issue in actions + [action];
  }

  lemma StillVerified(actions: seq<Action>, action: Action, request: Prepared)
    requires WasVerified(actions, request)
    ensures WasVerified(actions + [action], request)
  {
    var begin :| begin in actions && begin.BeginStart? && begin.verified && begin.request == request;
    assert begin in actions + [action];
    var expiresAt :| Issued(actions, request.challengeId, request.expected, expiresAt);
    StillIssued(actions, action, request.challengeId, request.expected, expiresAt);
  }

  lemma StillSession(actions: seq<Action>, action: Action, token: string, session: Session)
    requires SessionFrom(actions, token, session)
    ensures SessionFrom(actions + [action], token, session)
  {
    var finish :| finish in actions && finish.FinishStart? && WasVerified(actions, finish.request)
                  && finish.request.tokenHash == token
                  && session == Session(finish.request.subject, finish.now + 300, finish.request.proofHash,
                                        finish.request.signer);
    StillVerified(actions, action, finish.request);
    assert finish in actions + [action];
  }

  lemma StillReceipt(actions: seq<Action>, action: Action, id: string, receipt: Receipt)
    requires ReceiptFrom(actions, id, receipt)
    ensures ReceiptFrom(actions + [action], id, receipt)
  {
    var finish :| finish in actions && finish.FinishStart? && WasVerified(actions, finish.request)
                  && finish.request.receiptId == id
                  && receipt == Receipt(finish.request.expected.action, finish.request.expected.resource,
                                        finish.request.subject, finish.request.proofHash, finish.now);
    StillVerified(actions, action, finish.request);
    assert finish in actions + [action];
  }

  lemma MoreActions(w: World, actions: seq<Action>, action: Action)
    requires AllVerified(w, actions)
    ensures AllVerified(w, actions + [action])
  {
    forall id | id in w.tables.challenges
      ensures Issued(actions + [action], id, w.tables.challenges[id].binding, w.tables.challenges[id].expiresAt)
    {
      StillIssued(actions, action, id, w.tables.challenges[id].binding, w.tables.challenges[id].expiresAt);
    }
    forall request | request in w.prepared
      ensures WasVerified(actions + [action], request)
    {
      StillVerified(actions, action, request);
    }
    forall token | token in w.tables.sessions
      ensures SessionFrom(actions + [action], token, w.tables.sessions[token])
    {
      StillSession(actions, action, token, w.tables.sessions[token]);
    }
    forall id | id in w.tables.receipts
      ensures ReceiptFrom(actions + [action], id, w.tables.receipts[id])
    {
      StillReceipt(actions, action, id, w.tables.receipts[id]);
    }
  }

  lemma BeginVerified(w: World, actions: seq<Action>, action: Action)
    requires AllVerified(w, actions) && action in actions && action.BeginStart?
    ensures AllVerified(Apply(w, action), actions)
  {
    var request := action.request;
    if Apply(w, action) != w {
      var c := w.tables.challenges[request.challengeId];
      assert Issued(actions, request.challengeId, c.binding, c.expiresAt);
    }
  }

  lemma FinishVerified(w: World, actions: seq<Action>, action: Action)
    requires AllVerified(w, actions) && action in actions && action.FinishStart?
    ensures AllVerified(Apply(w, action), actions)
  {
    var p, w' := action.request, Apply(w, action);
    if w' != w {
      assert WasVerified(actions, p);
      assert SessionFrom(actions, p.tokenHash, w'.tables.sessions[p.tokenHash]);
      assert ReceiptFrom(actions, p.receiptId, w'.tables.receipts[p.receiptId]);
    }
  }

  lemma ApplyVerified(w: World, actions: seq<Action>, action: Action)
    requires AllVerified(w, actions)
    ensures AllVerified(Apply(w, action), actions + [action])
  {
    MoreActions(w, actions, action);
    assert action in actions + [action];
    match action
    case BeginStart(_, _, _) => BeginVerified(w, actions + [action], action);
    case FinishStart(_, _) => FinishVerified(w, actions + [action], action);
    case IssueChallenge(id, binding, now) =>
      assert Issued(actions + [action], id, binding, now + 60);
    case _ =>
  }

  lemma {:induction false} RunVerified(w: World, before: seq<Action>, actions: seq<Action>)
    requires AllVerified(w, before)
    ensures AllVerified(Run(w, actions), before + actions)
    decreases |actions|
  {
    if actions == [] {
      assert before + actions == before;
    } else {
      ApplyVerified(w, before, actions[0]);
      RunVerified(Apply(w, actions[0]), before + [actions[0]], actions[1..]);
      assert before + [actions[0]] + actions[1..] == before + actions;
    }
  }

  /**
   * Every session and every receipt is that of a start of the run whose proof was verified on an issued challenge,
   * and carries its subject, its proof, and the action and resource of the challenge.
   */
  lemma {:induction false} NoSessionWithoutProof(actions: seq<Action>, token: string, receiptId: string)
    ensures var t := Run(INITIAL, actions).tables;
            && (token in t.sessions ==> SessionFrom(actions, token, t.sessions[token]))
            && (receiptId in t.receipts ==> ReceiptFrom(actions, receiptId, t.receipts[receiptId]))
  {
    RunVerified(INITIAL, [], actions);
    assert [] + actions == actions;
  }

  /** Of two starts prepared on one challenge, the second to commit is refused, whatever its clock reads. */
  lemma SecondCommitRefused(t: Tables, first: Prepared, second: Prepared, now: nat, later: nat)
    requires first.challengeId == second.challengeId && CommitStart(t, first, now).Some?
    ensures CommitStart(CommitStart(t, first, now).value, second, later).None?
  {
  }

  /**
   * A start goes through exactly when its challenge is there, unused, unexpired and bound as expected, and its
   * receipt and token are new; then the challenge is used, receipt and session are added and expired sessions go.
   */
  lemma UsableStartCommits(t: Tables, p: Prepared, now: nat)
    ensures CommitStart(t, p, now).Some? <==>
              && p.challengeId in t.challenges && t.challenges[p.challengeId].consumedAt.None?
              && now < t.challenges[p.challengeId].expiresAt && t.challenges[p.challengeId].binding == p.expected
              && p.receiptId !in t.receipts
              && (p.tokenHash in t.sessions ==> t.sessions[p.tokenHash].expiresAt <= now)
    ensures CommitStart(t, p, now).Some? ==>
              var t', c := CommitStart(t, p, now).value, t.challenges[p.challengeId];
              && t'.challenges == t.challenges[p.challengeId := Challenge(c.binding, c.expiresAt, Some(now))]
              && t'.receipts == t.receipts[p.receiptId := Receipt(c.binding.action, c.binding.resource, p.subject,
                                                                  p.proofHash, now)]
              && (forall token :: token in t'.sessions <==>
                    token == p.tokenHash || (token in t.sessions && now < t.sessions[token].expiresAt))
              && forall token :: token in t'.sessions ==>
                   t'.sessions[token]
                   == if token == p.tokenHash then Session(p.subject, now + 300, p.proofHash, p.signer)
                      else t.sessions[token]
  {
  }

  function UnexpiredIds(t: Tables, now: nat): set<string> {
    set id | id in t.challenges && now < t.challenges[id].expiresAt
  }

  function UnusedIds(t: Tables, now: nat): set<string> {
    set id | id in t.challenges && now < t.challenges[id].expiresAt && t.challenges[id].consumedAt.None?
  }

  /**
   * A challenge is issued exactly when of those that have not expired there are fewer than 2048, fewer than 512 of
   * them unused, and none with its id or nonce.
   */
  lemma IssuedIff(t: Tables, id: string, binding: Binding, now: nat)
    ensures Issue(t, id, binding, now).Some? <==>
              && |UnexpiredIds(t, now)| < 2048 && |UnusedIds(t, now)| < 512 && id !in UnexpiredIds(t, now)
              && forall other :: other in UnexpiredIds(t, now) ==>
                   t.challenges[other].binding.nonceHash != binding.nonceHash
  {
    var challenges := Unexpired(t.challenges, now);
    assert challenges.Keys == UnexpiredIds(t, now) && |challenges| == |challenges.Keys|;
    assert Outstanding(challenges) == UnusedIds(t, now);
  }

  /** Then it is there for a minute; expired ones are gone, the others stay, and nothing else changes. */
  lemma IssuedAdds(t: Tables, id: string, binding: Binding, now: nat)
    requires Issue(t, id, binding, now).Some?
    ensures var t' := Issue(t, id, binding, now).value;
            && t'.sessions == t.sessions && t'.receipts == t.receipts
            && t'.challenges.Keys == UnexpiredIds(t, now) + {id}
            && t'.challenges[id] == Challenge(binding, now + 60, None)
            && forall other :: other in UnexpiredIds(t, now) ==> t'.challenges[other] == t.challenges[other]
  {
    assert Unexpired(t.challenges, now).Keys == UnexpiredIds(t, now);
  }

  /** A session can be had: a challenge that is issued, then proved and committed within its minute, starts one. */
  lemma ChallengeStartsSession(w: World, request: Prepared, issuedAt: nat, readAt: nat, committedAt: nat)
    requires request.challengeId !in w.issued && Issue(w.tables, request.challengeId, request.expected, issuedAt).Some?
    requires readAt < issuedAt + 60 && committedAt < issuedAt + 60
    requires request.receiptId !in w.tables.receipts && request.tokenHash !in w.tables.sessions
    ensures var w1 := Apply(w, IssueChallenge(request.challengeId, request.expected, issuedAt));
            var w' := Apply(Apply(w1, BeginStart(request, true, readAt)), FinishStart(request, committedAt));
            && request.tokenHash in w'.tables.sessions
            && w'.tables.sessions[request.tokenHash]
               == Session(request.subject, committedAt + 300, request.proofHash, request.signer)
            && request.receiptId in w'.tables.receipts
  {
    IssuedAdds(w.tables, request.challengeId, request.expected, issuedAt);
  }

  // ----- The transactions, statement by statement

  class SessionState {
    var challenges: map<string, Challenge>
    var sessions: map<string, Session>
    var receipts: map<string, Receipt>

    constructor ()
      ensures Snapshot() == EMPTY
    {
      challenges, sessions, receipts := map[], map[], map[];
    }

    function Snapshot(): Tables
      reads this
    {
      Tables(challenges, sessions, receipts)
    }

    method IssueChallenge(id: string, binding: Binding, now: nat) returns (ok: bool)
      modifies this`challenges
      ensures ok <==> Issue(old(Snapshot()), id, binding, now).Some?
      ensures Snapshot() == if ok then Issue(old(Snapshot()), id, binding, now).value else old(Snapshot())
    {
      var before := challenges;
      challenges := Unexpired(challenges, now);
      if AtCapacity(challenges) || id in challenges
         || exists other :: other in challenges && challenges[other].binding.nonceHash == binding.nonceHash {
        challenges := before;
        return false;
      }
      challenges := challenges[id := Challenge(binding, now + CHALLENGE_TTL_SECONDS, None)];
      return true;
    }

    method CommitStartedSession(p: Prepared, now: nat) returns (ok: bool)
      modifies this
      ensures ok <==> CommitStart(old(Snapshot()), p, now).Some?
      ensures Snapshot() == if ok then CommitStart(old(Snapshot()), p, now).value else old(Snapshot())
    {
      if p.challengeId !in challenges || !Usable(challenges[p.challengeId], now)
         || challenges[p.challengeId].binding != p.expected {
        return false;
      }
      var before := Snapshot();
      var current := challenges[p.challengeId];
      challenges := challenges[p.challengeId := current.(consumedAt := Some(now))];
      ok := p.receiptId !in receipts;
      if ok {
        receipts :=
          receipts[p.receiptId :=
                   Receipt(current.binding.action, current.binding.resource, p.subject, p.proofHash, now)];
        sessions := map token | token in sessions && !ExpiredSession(sessions[token], now) :: sessions[token];
        ok := p.tokenHash !in sessions;
        sessions := sessions[p.tokenHash := Session(p.subject, now + SESSION_TTL_SECONDS, p.proofHash, p.signer)];
      }
      if !ok {
        challenges, sessions, receipts := before.challenges, before.sessions, before.receipts;
      }
    }
  }
}
