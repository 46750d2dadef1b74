/** The signer's state files, rewritten step by step under its lock. */
module SignerStore {
  import opened Basics
  import opened Signer
  import opened SignerRuns

  class Store {
    const pol: Policy
    var challenges: map<Nonce, Record>
    var sessions: map<Version, Session>
    var last: Option<Version>
    var first: map<Version, map<Asset, Sha>>
    var log: seq<Entry>

    constructor (pol: Policy)
      ensures this.pol == pol && Contents() == Empty && Valid()
    {
      this.pol := pol;
      challenges, sessions, last, first, log := map[], map[], None, map[], [];
      new;
      EmptyInv(pol);
    }

    function Contents(): State
      reads this
    {
      State(challenges, sessions, last, first, log)
    }

    /** What every run keeps. */
    ghost predicate Valid()
      reads this
    {
      Inv(pol, Contents())
    }

    /** `check_new_session` */
    method CheckNewSession(r: Request) returns (problem: Option<Reason>)
      ensures problem == Problem(pol, Contents(), r)
    {
      var i := 0;
      while i < |r.assets|
        invariant 0 <= i <= |r.assets|
        invariant FirstProblem(pol, r, r.assets) == FirstProblem(pol, r, r.assets[i..])
      {
        var p := AssetProblem(pol, r, r.assets[i]);
        if p.Some? {
          return p;
        }
        i := i + 1;
      }
      if r.windows && !(exists a | a in r.assets :: a in pol.windows(r.version)) {
        return Some(NoWindowsSetup);
      }
      if r.version in sessions {
        if !r.reapprove {
          return Some(AlreadyApproved);
        }
        if sessions[r.version].request.base != r.base {
          return Some(BaseDiffers);
        }
      } else if r.reapprove {
        return Some(NothingToReapprove);
      }
      if r.version !in sessions && last.Some? && !Newer(r.version, last.value) {
        return Some(NotNewer);
      }
      problem := None;
    }

    /** `verb_challenge` */
    method Ask(r: Request, enrolled: bool, nonce: Nonce, now: int) returns (reply: Reply)
      requires Valid()
      modifies this
      ensures Valid()
      ensures (Contents(), reply) == DoAsk(pol, old(Contents()), r, enrolled, nonce, now)
    {
      hide Inv;
      StepKeepsInv(pol, Contents(), Verb.Ask(r, enrolled, nonce, now));
      if !WellAsked(r) {
        return Refused(Usage);
      }
      if !pol.approval {
        return Refused(ApprovalOff);
      }
      if !enrolled {
        return Refused(NoApprover);
      }
      var p := CheckNewSession(r);
      if p.Some? {
        return Refused(p.value);
      }
      var c := Challenge(r, |r.assets| * 2 + 4, nonce);
      challenges := challenges[nonce := Record(c, now, false)];
      reply := Done;
    }

    /** `write_session` */
    method OpenSession(c: Challenge, byAdmin: bool, checked: int, now: int)
      modifies this
      ensures Contents() == WriteSession(pol, old(Contents()), c, byAdmin, checked, now)
    {
      var v := c.request.version;
      var session := Session(c.request, c.maxSignatures, now, now + pol.sessionHours * 3600, c.nonce, byAdmin, 0, []);
      sessions := sessions[v := session];
      if last == None || Newer(v, last.value) {
        last := Some(v);
      }
      log := log + [Approved(session, checked)];
    }

    /** `verb_approve` */
    method Approve(nonce: Nonce, checked: int, now: int, bytes: nat, verifies: bool) returns (reply: Reply)
      requires Valid()
      modifies this
      ensures Valid()
      ensures (Contents(), reply) == DoApprove(pol, old(Contents()), nonce, checked, now, bytes, verifies)
    {
      hide Inv;
      StepKeepsInv(pol, Contents(), Verb.Approve(nonce, checked, now, bytes, verifies));
      if !pol.approval {
        return Refused(ApprovalOff);
      }
      if nonce !in challenges {
        return Refused(UnknownChallenge);
      }
      var rec := challenges[nonce];
      if rec.used {
        return Refused(ChallengeUsed);
      }
      if checked > rec.issued + pol.challengeMinutes * 60 {
        return Refused(ChallengeExpired);
      }
      if bytes > 1024 {
        return Refused(TooLarge);
      }
      if bytes == 0 {
        return Refused(NoSignature);
      }
      var c := rec.challenge;
      if !verifies {
        log := log + [RefusedApproval(c.request.version)];
        return Refused(BadSignature);
      }
      challenges := challenges[nonce := rec.(used := true)];
      var p := CheckNewSession(c.request);
      if p.Some? {
        return Refused(p.value);
      }
      OpenSession(c, false, checked, now);
      reply := Done;
    }

    /** `admin_approve` */
    method AdminApprove(r: Request, nonce: Nonce, now: int) returns (reply: Reply)
      requires Valid()
      modifies this
      ensures Valid()
      ensures (Contents(), reply) == DoAdminApprove(pol, old(Contents()), r, nonce, now)
    {
      hide Inv;
      StepKeepsInv(pol, Contents(), Verb.AdminApprove(r, nonce, now));
      if !WellAsked(r) {
        return Refused(Usage);
      }
      var p := CheckNewSession(r);
      if p.Some? {
        return Refused(p.value);
      }
      OpenSession(Challenge(r, |r.assets| * 2 + 4, nonce), true, now, now);
      reply := Done;
    }

    /** The session checks of `verb_sign`. */
    method CheckSession(asset: Asset, v: Version, at: int) returns (problem: Option<Reason>)
      ensures problem == SessionProblem(pol, Contents(), asset, v, at)
    {
      if pol.approval {
        if v !in sessions {
          return Some(NoSession);
        }
        var sess := sessions[v];
        if at > sess.expires {
          return Some(SessionExpired);
        }
        if asset !in sess.request.assets {
          return Some(NotListed);
        }
        if asset in pol.windows(v) && !sess.request.windows {
          return Some(WindowsNotApproved);
        }
      }
      problem := None;
    }

    /** `verb_sign` */
    method Sign(slot: Slot, asset: Asset, v: Version, input: Option<Sha>, at: int, evidence: bool, signs: bool)
      returns (reply: Reply)
      requires Valid()
      modifies this
      ensures Valid()
      ensures (Contents(), reply) == DoSign(pol, old(Contents()), slot, asset, v, input, at, evidence, signs)
    {
      hide Inv;
      SignKeeps(pol, Contents(), slot, asset, v, input, at, evidence, signs);
      if asset == SELF_TEST {
        return Refused(ListsSelfTest);
      }
      if asset !in pol.allowed(slot, v) {
        return Refused(NotSignable);
      }
      var p := CheckSession(asset, v, at);
      if p.Some? {
        return Refused(p.value);
      }
      assert pol.approval ==> v in sessions;
      hide SessionProblem;
      if input == None {
        return Refused(TooLarge);
      }
      var sha := input.value;
      var seen := if v in first then first[v] else map[];
      if asset in seen && seen[asset] != sha {
        log := log + [RefusedSwap(v, slot, asset, sha)];
        return Refused(Swap);
      }
      var key := Key(slot, asset, sha);
      var again := pol.approval && key in sessions[v].signed;
      if pol.approval && !again && sessions[v].count >= sessions[v].maxSignatures {
        return Refused(Exhausted);
      }
      if !evidence {
        log := log + [RefusedEvidence(v, slot, asset, sha)];
        return Refused(NoEvidence);
      }
      if !signs {
        return Refused(NotSigned);
      }
      if asset !in seen {
        first := first[v := seen[asset := sha]];
      }
      if pol.approval && !again {
        var sess := sessions[v];
        sessions := sessions[v := sess.(count := sess.count + 1, signed := sess.signed + [key])];
      }
      log := log + [Signed(v, slot, asset, sha, at, again)];
      reply := Done;
    }

    /** The signing part of `verb_preflight`. */
    method Preflight(v: Version, sha: Sha, at: int, signsU1: bool, signsU2: bool) returns (reply: Reply)
      requires Valid()
      modifies this
      ensures Valid()
      ensures (Contents(), reply) == DoPreflight(old(Contents()), v, sha, at, signsU1, signsU2)
    {
      hide Inv;
      StepKeepsInv(pol, Contents(), Verb.Preflight(v, sha, at, signsU1, signsU2));
      if !signsU1 {
        return Refused(NotSigned);
      }
      log := log + [Signed(v, U1, SELF_TEST, sha, at, false)];
      if !signsU2 {
        return Refused(NotSigned);
      }
      log := log + [Signed(v, U2, SELF_TEST, sha, at, false)];
      reply := Done;
    }
  }
}
