/** When the signer's verbs are answered Done, and what each answer leaves behind. */
module SignerRules {
  import opened Basics
  import opened Signer
  import opened SignerRuns

  /** A run goes on by the next verb's step. */
  lemma RunOn(pol: Policy, verbs: seq<Verb>, verb: Verb)
    ensures Run(pol, []) == Empty && Run(pol, verbs + [verb]) == Step(pol, Run(pol, verbs), verb).0
  {
    hide Step;
    assert (verbs + [verb])[..|verbs|] == verbs;
  }

  // ── The rules, in their own words ───────────────────────────────────────

  /** Versions compare as tuples: at the first part that differs. */
  lemma NewerIsLexicographic(a: Version, b: Version)
    ensures var x, y := [a.major, a.minor, a.patch], [b.major, b.minor, b.patch];
            Newer(a, b) <==> exists i | 0 <= i < 3 :: x[..i] == y[..i] && x[i] > y[i]
  {
    var x, y := [a.major, a.minor, a.patch], [b.major, b.minor, b.patch];
    assert x[..1] == [a.major] && y[..1] == [b.major];
    assert x[..2] == [a.major, a.minor] && y[..2] == [b.major, b.minor];
    if Newer(a, b) {
      var i := if a.major > b.major then 0 else if a.minor > b.minor then 1 else 2;
      assert x[..i] == y[..i] && x[i] > y[i];
    }
    if i :| 0 <= i < 3 && x[..i] == y[..i] && x[i] > y[i] {
      assert i > 0 ==> x[..i][0] == y[..i][0];
      assert i > 1 ==> x[..i][1] == y[..i][1];
    }
  }

  /** The request may list the asset. */
  predicate Listable(pol: Policy, r: Request, a: Asset) {
    && a != SELF_TEST && (a in pol.allowed(U1, r.version) || a in pol.allowed(U2, r.version))
    && (a in pol.windows(r.version) ==> r.windows)
  }

  /** What an approval must meet, over the sessions and the policy. */
  predicate MayOpen(pol: Policy, s: State, r: Request) {
    && (forall a | a in r.assets :: Listable(pol, r, a))
    && (r.windows ==> exists a | a in r.assets :: a in pol.windows(r.version))
    && (if r.version in s.sessions then r.reapprove && s.sessions[r.version].request.base == r.base
        else !r.reapprove && forall v | v in s.sessions :: Newer(r.version, v))
  }

  lemma {:induction false} NoAssetProblem(pol: Policy, r: Request, assets: seq<Asset>)
    ensures FirstProblem(pol, r, assets) == None <==> forall a | a in assets :: Listable(pol, r, a)
  {
    if assets != [] {
      NoAssetProblem(pol, r, assets[1..]);
      assert AssetProblem(pol, r, assets[0]) == None <==> Listable(pol, r, assets[0]);
      hide Listable, AssetProblem;
      assert forall a :: a in assets <==> a == assets[0] || a in assets[1..];
    }
  }

  lemma NewerThanAll(s: State, v: Version)
    requires LastOk(s)
    ensures (s.last == None || Newer(v, s.last.value)) <==> forall u | u in s.sessions :: Newer(v, u)
  {
    if s.last.Some? && Newer(v, s.last.value) {
      forall u | u in s.sessions ensures Newer(v, u) {
        NewerTransitive(v, s.last.value, u);
      }
    }
  }

  /** In every reachable state the code's rules for a new approval are these. */
  lemma RulesAre(pol: Policy, verbs: seq<Verb>, r: Request)
    ensures Problem(pol, Run(pol, verbs), r) == None <==> MayOpen(pol, Run(pol, verbs), r)
  {
    hide Run, Newer, FirstProblem, LastOk;
    var s := Run(pol, verbs);
    LastIsGreatest(pol, verbs);
    NoAssetProblem(pol, r, r.assets);
    NewerThanAll(s, r.version);
  }

  // ── Challenges ──────────────────────────────────────────────────────────

  /** In every reachable state a challenge is given exactly when approval is on,
      an approver is enrolled, and the request is well asked and may open; it is
      kept with its own request, limit and instant, and nothing else changes. */
  lemma AsksExactlyWhen(pol: Policy, verbs: seq<Verb>, r: Request, enrolled: bool, nonce: Nonce, now: int)
    ensures var s := Run(pol, verbs);
            var (t, reply) := DoAsk(pol, s, r, enrolled, nonce, now);
            && (reply == Done <==>
                  && pol.approval && enrolled && MayOpen(pol, s, r)
                  && r.assets != [] && (forall i, j | 0 <= i < j < |r.assets| :: r.assets[i] != r.assets[j]))
            && t == if reply == Done
                    then var c := Challenge(r, 2 * |r.assets| + 4, nonce);
                         s.(challenges := s.challenges[nonce := Record(c, now, false)])
                    else s
  {
    hide Run, Problem, MayOpen;
    RulesAre(pol, verbs, r);
  }

  // ── Approvals ───────────────────────────────────────────────────────────

  /** The challenge can still be approved by a signature of this size. */
  predicate Approvable(pol: Policy, s: State, nonce: Nonce, checked: int, bytes: nat) {
    && pol.approval && nonce in s.challenges && !s.challenges[nonce].used
    && checked <= s.challenges[nonce].issued + 60 * pol.challengeMinutes && 1 <= bytes <= 1024
  }

  /** The session an approval opens. */
  function NewSession(pol: Policy, c: Challenge, byAdmin: bool, now: int): Session {
    Session(c.request, c.maxSignatures, now, now + 3600 * pol.sessionHours, c.nonce, byAdmin, 0, [])
  }

  /** A session opened for `c`: its version's entry, the log, and the last
      version when this one is newer. */
  predicate Opens(pol: Policy, s: State, t: State, c: Challenge, byAdmin: bool, checked: int, now: int) {
    var session, v := NewSession(pol, c, byAdmin, now), c.request.version;
    && t.sessions == s.sessions[v := session] && t.log == s.log + [Approved(session, checked)] && t.first == s.first
    && t.last == if s.last == None || Newer(v, s.last.value) then Some(v) else s.last
  }

  /** In every reachable state an approval is given exactly when approval is on,
      the challenge exists, is unused and in its window, the signature is of the
      right size and verifies, and the request may still open. A signature that
      does not verify is logged; one that does uses the challenge up, whatever
      the rules then say; any other refusal changes nothing. */
  lemma ApprovesExactlyWhen(pol: Policy, verbs: seq<Verb>, nonce: Nonce, checked: int, now: int, bytes: nat,
                            verifies: bool)
    ensures var s := Run(pol, verbs);
            var (t, reply) := DoApprove(pol, s, nonce, checked, now, bytes, verifies);
            && (reply == Done <==>
                  && Approvable(pol, s, nonce, checked, bytes) && verifies
                  && MayOpen(pol, s, s.challenges[nonce].challenge.request))
            && (!Approvable(pol, s, nonce, checked, bytes) ==> t == s)
            && (Approvable(pol, s, nonce, checked, bytes) ==>
                  var rec := s.challenges[nonce];
                  && t.challenges == (if verifies then s.challenges[nonce := rec.(used := true)] else s.challenges)
                  && (reply == Done ==> Opens(pol, s, t, rec.challenge, false, checked, now))
                  && (reply != Done ==>
                        && t.sessions == s.sessions && t.last == s.last && t.first == s.first
                        && t.log == if verifies then s.log
                                    else s.log + [RefusedApproval(rec.challenge.request.version)]))
  {
    hide Run, Problem, MayOpen, Newer;
    var s := Run(pol, verbs);
    if nonce in s.challenges {
      RulesAre(pol, verbs, s.challenges[nonce].challenge.request);
      SameRules(pol, s, s.(challenges := s.challenges[nonce := s.challenges[nonce].(used := true)]),
                s.challenges[nonce].challenge.request);
    }
  }

  lemma SameRules(pol: Policy, s: State, t: State, r: Request)
    requires t.sessions == s.sessions && t.last == s.last
    ensures Problem(pol, t, r) == Problem(pol, s, r)
  {}

  /** In every reachable state an admin's approval is given exactly when the
      request is well asked and may open. */
  lemma AdminApprovesExactlyWhen(pol: Policy, verbs: seq<Verb>, r: Request, nonce: Nonce, now: int)
    ensures var s := Run(pol, verbs);
            var (t, reply) := DoAdminApprove(pol, s, r, nonce, now);
            && (reply == Done <==>
                  && MayOpen(pol, s, r) && r.assets != []
                  && forall i, j | 0 <= i < j < |r.assets| :: r.assets[i] != r.assets[j])
            && (reply == Done ==> Opens(pol, s, t, Challenge(r, 2 * |r.assets| + 4, nonce), true, now, now))
            && t.challenges == s.challenges && (reply != Done ==> t == s)
  {
    hide Run, Problem, MayOpen, Newer;
    RulesAre(pol, verbs, r);
  }

  // ── Which refusal comes ─────────────────────────────────────────────────

  /** The first asset of the request that it may not list. */
  predicate FirstUnlistable(pol: Policy, r: Request, i: nat) {
    i < |r.assets| && !Listable(pol, r, r.assets[i]) && forall j | 0 <= j < i :: Listable(pol, r, r.assets[j])
  }

  lemma {:induction false} FirstProblemIs(pol: Policy, r: Request, assets: seq<Asset>, i: nat)
    requires i < |assets| && !Listable(pol, r, assets[i]) && forall j | 0 <= j < i :: Listable(pol, r, assets[j])
    ensures FirstProblem(pol, r, assets) == AssetProblem(pol, r, assets[i]) && AssetProblem(pol, r, assets[i]).Some?
  {
    if i > 0 {
      assert Listable(pol, r, assets[0]);
      assert forall j | 0 <= j < i - 1 :: assets[1..][j] == assets[j + 1];
      FirstProblemIs(pol, r, assets[1..], i - 1);
    }
  }

  /** The reason an approval is refused for: the first asset that may not be
      listed decides, in the order self-test, not signable, Windows; then the
      Windows flag, and then what the sessions say. */
  lemma RulesRefuseFor(pol: Policy, verbs: seq<Verb>, r: Request, i: nat)
    ensures var s := Run(pol, verbs);
            var p := Problem(pol, s, r);
            if FirstUnlistable(pol, r, i) then
              var a := r.assets[i];
              && (p == Some(ListsSelfTest) <==> a == SELF_TEST)
              && (p == Some(NotSignable) <==>
                    a != SELF_TEST && a !in pol.allowed(U1, r.version) && a !in pol.allowed(U2, r.version))
              && (p == Some(WindowsNotApproved) <==>
                    && a != SELF_TEST && (a in pol.allowed(U1, r.version) || a in pol.allowed(U2, r.version))
                    && a in pol.windows(r.version) && !r.windows)
            else (forall a | a in r.assets :: Listable(pol, r, a)) ==>
              var flagged := r.windows && forall a | a in r.assets :: a !in pol.windows(r.version);
              var before := r.version in s.sessions;
              && (p == Some(NoWindowsSetup) <==> flagged)
              && (p == Some(AlreadyApproved) <==> !flagged && before && !r.reapprove)
              && (p == Some(BaseDiffers) <==>
                    !flagged && before && r.reapprove && s.sessions[r.version].request.base != r.base)
              && (p == Some(NothingToReapprove) <==> !flagged && !before && r.reapprove)
              && (p == Some(NotNewer) <==>
                    !flagged && !before && !r.reapprove && exists v | v in s.sessions :: !Newer(r.version, v))
  {
    hide Run, Newer, LastOk, FirstProblem;
    var s := Run(pol, verbs);
    LastIsGreatest(pol, verbs);
    NewerThanAll(s, r.version);
    NoAssetProblem(pol, r, r.assets);
    if FirstUnlistable(pol, r, i) {
      FirstProblemIs(pol, r, r.assets, i);
      assert r.assets[i] in r.assets;
    }
  }

  /** What `approve` answers, in the order in which it looks. */
  lemma ApproveRefusesFor(pol: Policy, s: State, nonce: Nonce, checked: int, now: int, bytes: nat, verifies: bool)
    ensures var reply := DoApprove(pol, s, nonce, checked, now, bytes, verifies).1;
            var known := pol.approval && nonce in s.challenges;
            var open := known && !s.challenges[nonce].used;
            var inTime := open && checked <= s.challenges[nonce].issued + 60 * pol.challengeMinutes;
            && (!pol.approval ==> reply == Refused(ApprovalOff))
            && (pol.approval && !known ==> reply == Refused(UnknownChallenge))
            && (known && !open ==> reply == Refused(ChallengeUsed))
            && (open && !inTime ==> reply == Refused(ChallengeExpired))
            && (inTime && bytes > 1024 ==> reply == Refused(TooLarge))
            && (inTime && bytes == 0 ==> reply == Refused(NoSignature))
            && (inTime && 1 <= bytes <= 1024 && !verifies ==> reply == Refused(BadSignature))
            && (inTime && 1 <= bytes <= 1024 && verifies ==>
                  var p := Problem(pol, s, s.challenges[nonce].challenge.request);
                  reply == if p.Some? then Refused(p.value) else Done)
  {
    hide Problem, Newer;
    if nonce in s.challenges {
      SameRules(pol, s, s.(challenges := s.challenges[nonce := s.challenges[nonce].(used := true)]),
                s.challenges[nonce].challenge.request);
    }
  }

  /** What `sign` answers in every reachable state, in the order in which it looks. */
  lemma SignRefusesFor(pol: Policy, verbs: seq<Verb>, slot: Slot, asset: Asset, v: Version, input: Option<Sha>,
                       at: int, evidence: bool, signs: bool)
    ensures var s := Run(pol, verbs);
            var reply := DoSign(pol, s, slot, asset, v, input, at, evidence, signs).1;
            var signable := asset != SELF_TEST && asset in pol.allowed(slot, v);
            var approved := signable && (pol.approval ==> v in s.sessions);
            var inTime := approved && (pol.approval ==> at <= s.sessions[v].expires);
            var listed := inTime && (pol.approval ==> asset in s.sessions[v].request.assets);
            var same := listed && input.Some? && (asset in FirstOf(s, v) ==> FirstOf(s, v)[asset] == input.value);
            && (asset == SELF_TEST ==> reply == Refused(ListsSelfTest))
            && (asset != SELF_TEST && !signable ==> reply == Refused(NotSignable))
            && (signable && !approved ==> reply == Refused(NoSession))
            && (approved && !inTime ==> reply == Refused(SessionExpired))
            && (inTime && !listed ==> reply == Refused(NotListed))
            && (listed && input == None ==> reply == Refused(TooLarge))
            && (listed && input.Some? && !same ==> reply == Refused(Swap))
            && (same && !evidence ==> reply == Refused(NoEvidence))
            && (same && evidence && !signs ==> reply == Refused(NotSigned))
            && (same && evidence && signs ==> reply == Done)
  {
    hide Run, Inv;
    SessionServes(pol, verbs, asset, v, at);
    NeverExhausted(pol, verbs, Sign(slot, asset, v, input, at, evidence, signs));
  }

  // ── Where the log's approvals come from ─────────────────────────────────

  /** Verb `k` of the run wrote line `i`: an approval by a verified signature
      over the challenge named, or by an admin. */
  predicate WroteApproval(pol: Policy, verbs: seq<Verb>, k: nat, i: nat) {
    && k < |verbs| && i < |Run(pol, verbs).log| && i == |Run(pol, verbs[..k]).log|
    && Run(pol, verbs).log[i].Approved?
    && var e := Run(pol, verbs).log[i];
       if e.session.byAdmin then verbs[k].AdminApprove? && verbs[k].r == e.session.request
       else verbs[k].Approve? && verbs[k].verifies && verbs[k].nonce == e.session.nonce && verbs[k].checked == e.checked
  }

  lemma ApprovalWritten(pol: Policy, s: State, verb: Verb, i: nat)
    requires RecordsOk(s)
    requires |s.log| <= i < |Step(pol, s, verb).0.log| && Step(pol, s, verb).0.log[i].Approved?
    ensures var e := Step(pol, s, verb).0.log[i];
            && i == |s.log|
            && if e.session.byAdmin then verb.AdminApprove? && verb.r == e.session.request
               else verb.Approve? && verb.verifies && verb.nonce == e.session.nonce && verb.checked == e.checked
  {
    hide Problem, SessionProblem, WellAsked, Newer;
    if verb.Sign? {
      SignAdds(pol, s, verb.slot, verb.asset, verb.version, verb.input, verb.at, verb.evidence, verb.signs);
    }
  }

  /** In every run each approval in the log was written by an `approve` whose
      signature verified over that challenge, or by an admin. */
  lemma {:induction false} ApprovalsAreSigned(pol: Policy, verbs: seq<Verb>, i: nat)
    requires i < |Run(pol, verbs).log| && Run(pol, verbs).log[i].Approved?
    ensures exists k: nat :: WroteApproval(pol, verbs, k, i)
  {
    hide Step, Adds, Inv;
    if verbs != [] {
      var n := |verbs| - 1;
      var s, t := Run(pol, verbs[..n]), Run(pol, verbs);
      StepAdds(pol, s, verbs[n]);
      AddsGrows(s, t);
      if i < |s.log| {
        ApprovalsAreSigned(pol, verbs[..n], i);
        var k: nat :| WroteApproval(pol, verbs[..n], k, i);
        assert verbs[..n][..k] == verbs[..k];
        assert WroteApproval(pol, verbs, k, i);
      } else {
        RunKeepsInv(pol, verbs[..n]);
        RecordsOf(pol, s);
        ApprovalWritten(pol, s, verbs[n], i);
        assert WroteApproval(pol, verbs, n, i);
      }
    }
  }

  lemma RecordsOf(pol: Policy, s: State)
    requires Inv(pol, s)
    ensures RecordsOk(s)
  {}

  // ── Signatures ──────────────────────────────────────────────────────────

  /** What each answer of `sign` writes to the log, and when: another hash for
      an asset of an open session is logged as a swap, missing evidence as that,
      and a signature with whether the session had signed these bytes before. */
  lemma SignLogs(pol: Policy, verbs: seq<Verb>, slot: Slot, asset: Asset, v: Version, input: Option<Sha>, at: int,
                 evidence: bool, signs: bool)
    ensures var s := Run(pol, verbs);
            var (t, reply) := DoSign(pol, s, slot, asset, v, input, at, evidence, signs);
            var open := && asset != SELF_TEST && asset in pol.allowed(slot, v) && input.Some?
                        && (pol.approval ==>
                              v in s.sessions && at <= s.sessions[v].expires && asset in s.sessions[v].request.assets);
            var same := open && (asset in FirstOf(s, v) ==> FirstOf(s, v)[asset] == input.value);
            && t.log == s.log +
                 (if open && !same then [RefusedSwap(v, slot, asset, input.value)]
                  else if same && !evidence then [RefusedEvidence(v, slot, asset, input.value)]
                  else if same && signs then
                    [Signed(v, slot, asset, input.value, at,
                            pol.approval && Key(slot, asset, input.value) in s.sessions[v].signed)]
                  else [])
            && t.challenges == s.challenges && t.last == s.last
  {
    hide Run, Inv, SessionProblem;
    var s := Run(pol, verbs);
    NeverExhausted(pol, verbs, Sign(slot, asset, v, input, at, evidence, signs));
    SessionServes(pol, verbs, asset, v, at);
    assert s.log + [] == s.log;
  }

  /** A signature is recorded: the first hash, and in the session once. */
  lemma SignRecords(pol: Policy, verbs: seq<Verb>, slot: Slot, asset: Asset, v: Version, input: Option<Sha>, at: int,
                    evidence: bool, signs: bool)
    requires DoSign(pol, Run(pol, verbs), slot, asset, v, input, at, evidence, signs).1 == Done
    ensures var s := Run(pol, verbs);
            var t := DoSign(pol, s, slot, asset, v, input, at, evidence, signs).0;
            && input.Some? && t.first == s.first[v := FirstOf(s, v)[asset := input.value]]
            && (if pol.approval then
                  v in s.sessions
                  && var sess, key := s.sessions[v], Key(slot, asset, input.value);
                     t.sessions == s.sessions[v := if key in sess.signed then sess
                                                   else sess.(count := sess.count + 1, signed := sess.signed + [key])]
                else t.sessions == s.sessions)
  {
    hide Run;
    var s := Run(pol, verbs);
    if input.Some? && asset in FirstOf(s, v) {
      assert FirstOf(s, v)[asset := input.value] == FirstOf(s, v);
      assert s.first[v := FirstOf(s, v)] == s.first;
    }
    if v in s.sessions {
      assert s.sessions[v := s.sessions[v]] == s.sessions;
    }
  }

  /** Preflight logs a signature of the self-test for each slot up to the first
      that does not sign, and changes nothing else. */
  lemma PreflightLogs(s: State, v: Version, sha: Sha, at: int, signsU1: bool, signsU2: bool)
    ensures var (t, reply) := DoPreflight(s, v, sha, at, signsU1, signsU2);
            && (reply == Done <==> signsU1 && signsU2) && t == s.(log := t.log) && s.log <= t.log
            && |t.log| - |s.log| == (if signsU1 then if signsU2 then 2 else 1 else 0)
            && forall i | |s.log| <= i < |t.log| ::
                 t.log[i] == Signed(v, if i == |s.log| then U1 else U2, SELF_TEST, sha, at, false)
  {}
}
