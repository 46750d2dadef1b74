/** The release signer: approvals, signing sessions and what may be signed under them. */
module Signer {
  import opened Basics

  datatype Version = Version(major: nat, minor: nat, patch: nat)

  /** `vtuple(a) > vtuple(b)` */
  predicate Newer(a: Version, b: Version) {
    a.major > b.major || (a.major == b.major && (a.minor > b.minor || (a.minor == b.minor && a.patch > b.patch)))
  }

  type Asset = string
  type Sha = string
  type Nonce = string

  const SELF_TEST: Asset := "k2-preflight-self-test"

  datatype Slot = U1 | U2

  datatype Policy = Policy(approval: bool, sessionHours: nat, challengeMinutes: nat,
                           allowed: (Slot, Version) -> set<Asset>, windows: Version -> set<Asset>)

  /** What an approval asks for. */
  datatype Request = Request(version: Version, base: string, assets: seq<Asset>, windows: bool, reapprove: bool)

  datatype Challenge = Challenge(request: Request, maxSignatures: nat, nonce: Nonce)

  datatype Record = Record(challenge: Challenge, issued: int, used: bool)

  datatype Key = Key(slot: Slot, asset: Asset, sha: Sha)

  datatype Session = Session(request: Request, maxSignatures: nat, approved: int, expires: int,
                             nonce: Nonce, byAdmin: bool, count: nat, signed: seq<Key>)

  /** A line of the audit log. An approval keeps the session as it was opened and
      the instant its challenge was checked; a signature keeps the instant its
      session was checked. */
  datatype Entry =
    | Approved(session: Session, checked: int)
    | RefusedApproval(version: Version)
    | Signed(version: Version, slot: Slot, asset: Asset, sha: Sha, at: int, again: bool)
    | RefusedSwap(version: Version, slot: Slot, asset: Asset, sha: Sha)
    | RefusedEvidence(version: Version, slot: Slot, asset: Asset, sha: Sha)

  datatype State = State(challenges: map<Nonce, Record>, sessions: map<Version, Session>, last: Option<Version>,
                         first: map<Version, map<Asset, Sha>>, log: seq<Entry>)

  datatype Reason =
    | Usage | ApprovalOff | NoApprover
    | ListsSelfTest | NotSignable | WindowsNotApproved | NoWindowsSetup
    | AlreadyApproved | BaseDiffers | NothingToReapprove | NotNewer
    | UnknownChallenge | ChallengeUsed | ChallengeExpired | TooLarge | NoSignature | BadSignature
    | NoSession | SessionExpired | NotListed | Swap | Exhausted | NoEvidence | NotSigned

  datatype Reply = Done | Refused(reason: Reason)

  // ── Rules for a new approval ────────────────────────────────────────────

  function AssetProblem(pol: Policy, r: Request, a: Asset): Option<Reason> {
    if a == SELF_TEST then Some(ListsSelfTest)
    else if a !in pol.allowed(U1, r.version) + pol.allowed(U2, r.version) then Some(NotSignable)
    else if a in pol.windows(r.version) && !r.windows then Some(WindowsNotApproved)
    else None
  }

  function FirstProblem(pol: Policy, r: Request, assets: seq<Asset>): Option<Reason> {
    if assets == [] then None
    else
      var p := AssetProblem(pol, r, assets[0]);
      if p.Some? then p else FirstProblem(pol, r, assets[1..])
  }

  predicate ListsWindows(pol: Policy, r: Request) {
    exists a | a in r.assets :: a in pol.windows(r.version)
  }

  function Problem(pol: Policy, s: State, r: Request): Option<Reason> {
    var p := FirstProblem(pol, r, r.assets);
    if p.Some? then p
    else if r.windows && !ListsWindows(pol, r) then Some(NoWindowsSetup)
    else if r.version in s.sessions && !r.reapprove then Some(AlreadyApproved)
    else if r.version in s.sessions && s.sessions[r.version].request.base != r.base then Some(BaseDiffers)
    else if r.version !in s.sessions && r.reapprove then Some(NothingToReapprove)
    else if r.version !in s.sessions && s.last.Some? && !Newer(r.version, s.last.value) then Some(NotNewer)
    else None
  }

  predicate WellAsked(r: Request) { r.assets != [] && Distinct(r.assets) }

  function MaxSignatures(r: Request): nat { |r.assets| * 2 + 4 }

  // ── Verbs ───────────────────────────────────────────────────────────────

  /** Each verb's arguments with what it reads from outside: clocks, random
      tokens, and what the signature and evidence checks answer. */
  datatype Verb =
    | Ask(r: Request, enrolled: bool, nonce: Nonce, now: int)
    | Approve(nonce: Nonce, checked: int, now: int, bytes: nat, verifies: bool)
    | AdminApprove(r: Request, nonce: Nonce, now: int)
    | Sign(slot: Slot, asset: Asset, version: Version, input: Option<Sha>, at: int, evidence: bool, signs: bool)
    | Preflight(version: Version, sha: Sha, at: int, signsU1: bool, signsU2: bool)

  function WriteSession(pol: Policy, s: State, c: Challenge, byAdmin: bool, checked: int, now: int): State {
    var v := c.request.version;
    var session := Session(c.request, c.maxSignatures, now, now + pol.sessionHours * 3600, c.nonce, byAdmin, 0, []);
    s.(sessions := s.sessions[v := session],
       last := if s.last == None || Newer(v, s.last.value) then Some(v) else s.last,
       log := s.log + [Approved(session, checked)])
  }

  function DoAsk(pol: Policy, s: State, r: Request, enrolled: bool, nonce: Nonce, now: int): (State, Reply) {
    if !WellAsked(r) then (s, Refused(Usage))
    else if !pol.approval then (s, Refused(ApprovalOff))
    else if !enrolled then (s, Refused(NoApprover))
    else
      var p := Problem(pol, s, r);
      if p.Some? then (s, Refused(p.value))
      else (s.(challenges := s.challenges[nonce := Record(Challenge(r, MaxSignatures(r), nonce), now, false)]), Done)
  }

  function DoApprove(pol: Policy, s: State, nonce: Nonce, checked: int, now: int, bytes: nat, verifies: bool)
    : (State, Reply)
  {
    if !pol.approval then (s, Refused(ApprovalOff))
    else if nonce !in s.challenges then (s, Refused(UnknownChallenge))
    else
      var rec := s.challenges[nonce];
      var c := rec.challenge;
      if rec.used then (s, Refused(ChallengeUsed))
      else if checked > rec.issued + pol.challengeMinutes * 60 then (s, Refused(ChallengeExpired))
      else if bytes > 1024 then (s, Refused(TooLarge))
      else if bytes == 0 then (s, Refused(NoSignature))
      else if !verifies then (s.(log := s.log + [RefusedApproval(c.request.version)]), Refused(BadSignature))
      else
        var t := s.(challenges := s.challenges[nonce := rec.(used := true)]);
        var p := Problem(pol, t, c.request);
        if p.Some? then (t, Refused(p.value)) else (WriteSession(pol, t, c, false, checked, now), Done)
  }

  function DoAdminApprove(pol: Policy, s: State, r: Request, nonce: Nonce, now: int): (State, Reply) {
    if !WellAsked(r) then (s, Refused(Usage))
    else
      var p := Problem(pol, s, r);
      if p.Some? then (s, Refused(p.value))
      else (WriteSession(pol, s, Challenge(r, MaxSignatures(r), nonce), true, now, now), Done)
  }

  function FirstOf(s: State, v: Version): map<Asset, Sha> {
    if v in s.first then s.first[v] else map[]
  }

  function SessionProblem(pol: Policy, s: State, asset: Asset, v: Version, at: int): Option<Reason> {
    if !pol.approval then None
    else if v !in s.sessions then Some(NoSession)
    else
      var sess := s.sessions[v];
      if at > sess.expires then Some(SessionExpired)
      else if asset !in sess.request.assets then Some(NotListed)
      else if asset in pol.windows(v) && !sess.request.windows then Some(WindowsNotApproved)
      else None
  }

  function DoSign(pol: Policy, s: State, slot: Slot, asset: Asset, v: Version, input: Option<Sha>, at: int,
                  evidence: bool, signs: bool): (State, Reply) {
    if asset == SELF_TEST then (s, Refused(ListsSelfTest))
    else if asset !in pol.allowed(slot, v) then (s, Refused(NotSignable))
    else
      var p := SessionProblem(pol, s, asset, v, at);
      if p.Some? then (s, Refused(p.value))
      else if input == None then (s, Refused(TooLarge))
      else
        var sha := input.value;
        var first := FirstOf(s, v);
        var key := Key(slot, asset, sha);
        var again := pol.approval && key in s.sessions[v].signed;
        if asset in first && first[asset] != sha then
          (s.(log := s.log + [RefusedSwap(v, slot, asset, sha)]), Refused(Swap))
        else if pol.approval && !again && s.sessions[v].count >= s.sessions[v].maxSignatures then
          (s, Refused(Exhausted))
        else if !evidence then (s.(log := s.log + [RefusedEvidence(v, slot, asset, sha)]), Refused(NoEvidence))
        else if !signs then (s, Refused(NotSigned))
        else
          var sessions :=
            if pol.approval && !again then
              var sess := s.sessions[v];
              s.sessions[v := sess.(count := sess.count + 1, signed := sess.signed + [key])]
            else s.sessions;
          (s.(first := if asset in first then s.first else s.first[v := first[asset := sha]],
              sessions := sessions,
              log := s.log + [Signed(v, slot, asset, sha, at, again)]), Done)
  }

  function DoPreflight(s: State, v: Version, sha: Sha, at: int, signsU1: bool, signsU2: bool): (State, Reply) {
    if !signsU1 then (s, Refused(NotSigned))
    else
      var t := s.(log := s.log + [Signed(v, U1, SELF_TEST, sha, at, false)]);
      if !signsU2 then (t, Refused(NotSigned))
      else (t.(log := t.log + [Signed(v, U2, SELF_TEST, sha, at, false)]), Done)
  }

  function Step(pol: Policy, s: State, verb: Verb): (State, Reply) {
    match verb
    case Ask(r, enrolled, nonce, now) => DoAsk(pol, s, r, enrolled, nonce, now)
    case Approve(nonce, checked, now, bytes, verifies) => DoApprove(pol, s, nonce, checked, now, bytes, verifies)
    case AdminApprove(r, nonce, now) => DoAdminApprove(pol, s, r, nonce, now)
    case Sign(slot, asset, v, input, at, evidence, signs) => DoSign(pol, s, slot, asset, v, input, at, evidence, signs)
    case Preflight(v, sha, at, signsU1, signsU2) => DoPreflight(s, v, sha, at, signsU1, signsU2)
  }

  const Empty := State(map[], map[], None, map[], [])

  /** A new challenge's random token is not that of an earlier challenge. */
  predicate FreshToken(s: State, verb: Verb) {
    verb.Ask? ==> verb.nonce !in s.challenges
  }

  /** The state after a run; the verbs take the lock in this order. */
  function Run(pol: Policy, verbs: seq<Verb>): State {
    if verbs == [] then Empty else Step(pol, Run(pol, verbs[..|verbs| - 1]), verbs[|verbs| - 1]).0
  }

  predicate FreshTokens(pol: Policy, verbs: seq<Verb>) {
    forall k | 0 <= k < |verbs| :: FreshToken(Run(pol, verbs[..k]), verbs[k])
  }
}
