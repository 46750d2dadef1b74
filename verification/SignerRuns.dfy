/** What holds after every run of the signer's verbs. */
module SignerRuns {
  import opened Basics
  import opened Signer

  /** The session the log's latest approval of `v` opened. */
  function Latest(log: seq<Entry>, v: Version): Option<Session> {
    if log == [] then None
    else
      var e := log[|log| - 1];
      if e.Approved? && e.session.request.version == v then Some(e.session) else Latest(log[..|log| - 1], v)
  }

  function Opened(sess: Session): Session {
    sess.(count := 0, signed := [])
  }

  // ── The invariant ───────────────────────────────────────────────────────

  predicate RequestOk(pol: Policy, r: Request) {
    WellAsked(r) && (r.windows <==> ListsWindows(pol, r))
  }

  predicate KeyOk(first: map<Asset, Sha>, assets: seq<Asset>, k: Key) {
    k.asset in assets && k.asset in first && first[k.asset] == k.sha
  }

  predicate SessionOk(pol: Policy, first: map<Asset, Sha>, v: Version, sess: Session) {
    && sess.request.version == v && RequestOk(pol, sess.request)
    && sess.maxSignatures == MaxSignatures(sess.request)
    && sess.count == |sess.signed| && Distinct(sess.signed)
    && forall k | k in sess.signed :: KeyOk(first, sess.request.assets, k)
  }

  predicate SessionsOk(pol: Policy, s: State) {
    forall v | v in s.sessions :: SessionOk(pol, FirstOf(s, v), v, s.sessions[v])
  }

  predicate RecordsOk(s: State) {
    forall n | n in s.challenges ::
      var c := s.challenges[n].challenge;
      WellAsked(c.request) && c.maxSignatures == MaxSignatures(c.request) && c.nonce == n
  }

  /** `last` is the greatest version with a session. */
  predicate LastOk(s: State) {
    && (s.last == None ==> s.sessions == map[])
    && (s.last.Some? ==> s.last.value in s.sessions && forall v | v in s.sessions :: !Newer(v, s.last.value))
  }

  /** The sessions are the ones the log's latest approvals opened. */
  ghost predicate LatestOk(s: State) {
    forall v :: Latest(s.log, v) == if v in s.sessions then Some(Opened(s.sessions[v])) else None
  }

  /** Every approval of a version names the base commit of its session. */
  predicate BasesOk(s: State) {
    forall e | e in s.log && e.Approved? ::
      var r := e.session.request; r.version in s.sessions && s.sessions[r.version].request.base == r.base
  }

  /** An approval that does not say it is one again. */
  predicate FirstTime(e: Entry) { e.Approved? && !e.session.request.reapprove }

  /** First-time approvals come in strictly increasing version order. */
  predicate OrderOk(log: seq<Entry>) {
    forall i, j | 0 <= i < j < |log| && FirstTime(log[i]) && FirstTime(log[j]) ::
      Newer(log[j].session.request.version, log[i].session.request.version)
  }

  predicate ByChallenge(e: Entry) { e.Approved? && !e.session.byAdmin }

  /** An approval by challenge used that challenge, inside its window. */
  predicate UsedOk(pol: Policy, s: State, e: Entry) {
    ByChallenge(e) ==>
      && e.session.nonce in s.challenges
      && var rec := s.challenges[e.session.nonce];
         rec.used && rec.challenge.request == e.session.request && e.checked <= rec.issued + pol.challengeMinutes * 60
  }

  predicate NoncesOk(pol: Policy, s: State) {
    && (forall e | e in s.log :: UsedOk(pol, s, e))
    && forall i, j | 0 <= i < j < |s.log| && ByChallenge(s.log[i]) && ByChallenge(s.log[j]) ::
         s.log[i].session.nonce != s.log[j].session.nonce
  }

  predicate AssetSignature(e: Entry) { e.Signed? && e.asset != SELF_TEST }

  /** Every asset signature is over the first hash recorded for its version and asset. */
  predicate FirstHashOk(s: State) {
    forall e | e in s.log && AssetSignature(e) ::
      e.asset in FirstOf(s, e.version) && FirstOf(s, e.version)[e.asset] == e.sha
  }

  /** The latest approval before the signature covers it. */
  predicate Covered(pol: Policy, before: seq<Entry>, e: Entry)
    requires e.Signed?
  {
    && Latest(before, e.version).Some?
    && var sess := Latest(before, e.version).value;
       && e.asset in sess.request.assets && e.at <= sess.expires
       && (sess.request.windows <==> ListsWindows(pol, sess.request))
  }

  predicate CoverOk(pol: Policy, log: seq<Entry>) {
    pol.approval ==> forall i | 0 <= i < |log| && AssetSignature(log[i]) :: Covered(pol, log[..i], log[i])
  }

  ghost predicate Inv(pol: Policy, s: State) {
    && SessionsOk(pol, s) && RecordsOk(s) && LastOk(s) && LatestOk(s) && BasesOk(s) && OrderOk(s.log)
    && FirstHashOk(s) && CoverOk(pol, s.log)
  }

  // ── Opening a session ───────────────────────────────────────────────────

  lemma {:induction false} NoProblemAssets(pol: Policy, r: Request, assets: seq<Asset>)
    requires FirstProblem(pol, r, assets) == None
    ensures forall a | a in assets :: a in pol.windows(r.version) ==> r.windows
  {
    if assets != [] {
      NoProblemAssets(pol, r, assets[1..]);
    }
  }

  lemma NoProblem(pol: Policy, s: State, r: Request)
    requires Problem(pol, s, r) == None && WellAsked(r)
    ensures RequestOk(pol, r)
    ensures if r.version in s.sessions then r.reapprove && s.sessions[r.version].request.base == r.base
            else !r.reapprove && (s.last == None || Newer(r.version, s.last.value))
  {
    NoProblemAssets(pol, r, r.assets);
  }

  lemma NewerTransitive(a: Version, b: Version, c: Version)
    requires Newer(a, b) && !Newer(c, b)
    ensures Newer(a, c)
  {}

  lemma LatestNext(log: seq<Entry>, e: Entry, v: Version)
    ensures Latest(log + [e], v)
         == if e.Approved? && e.session.request.version == v then Some(e.session) else Latest(log, v)
  {
    assert (log + [e])[..|log|] == log;
  }

  lemma OpenKeepsSessions(pol: Policy, s: State, c: Challenge, byAdmin: bool, checked: int, now: int)
    requires SessionsOk(pol, s) && RequestOk(pol, c.request) && c.maxSignatures == MaxSignatures(c.request)
    ensures SessionsOk(pol, WriteSession(pol, s, c, byAdmin, checked, now))
  {
    hide RequestOk, KeyOk;
    var t := WriteSession(pol, s, c, byAdmin, checked, now);
    forall v | v in t.sessions
      ensures SessionOk(pol, FirstOf(t, v), v, t.sessions[v])
    {
      assert FirstOf(t, v) == FirstOf(s, v);
      assert v != c.request.version ==> SessionOk(pol, FirstOf(s, v), v, s.sessions[v]);
    }
  }

  lemma OpenKeepsLast(pol: Policy, s: State, c: Challenge, byAdmin: bool, checked: int, now: int)
    requires LastOk(s) && (c.request.version in s.sessions || s.last == None || Newer(c.request.version, s.last.value))
    ensures LastOk(WriteSession(pol, s, c, byAdmin, checked, now))
  {
    var v := c.request.version;
    if s.last.Some? {
      forall u | u in s.sessions && Newer(v, s.last.value) ensures !Newer(u, v) {
        NewestStays(u, s.last.value, v);
      }
    }
  }

  lemma NewestStays(u: Version, last: Version, v: Version)
    requires !Newer(u, last) && Newer(v, last)
    ensures !Newer(u, v)
  {}

  lemma OpenKeepsHashes(pol: Policy, s: State, c: Challenge, byAdmin: bool, checked: int, now: int)
    requires FirstHashOk(s) && RecordsOk(s)
    ensures var t := WriteSession(pol, s, c, byAdmin, checked, now); FirstHashOk(t) && RecordsOk(t)
  {
    var t := WriteSession(pol, s, c, byAdmin, checked, now);
    assert forall v :: FirstOf(t, v) == FirstOf(s, v);
  }

  lemma OpenKeepsLatest(pol: Policy, s: State, c: Challenge, byAdmin: bool, checked: int, now: int)
    requires Inv(pol, s) && Problem(pol, s, c.request) == None && WellAsked(c.request)
    ensures var t := WriteSession(pol, s, c, byAdmin, checked, now); LatestOk(t) && BasesOk(t)
  {
    hide Problem, SessionsOk, RecordsOk, LastOk, OrderOk, CoverOk, FirstHashOk, RequestOk;
    NoProblem(pol, s, c.request);
    var t := WriteSession(pol, s, c, byAdmin, checked, now);
    forall v
      ensures Latest(t.log, v) == if v in t.sessions then Some(Opened(t.sessions[v])) else None
    {
      LatestNext(s.log, t.log[|s.log|], v);
    }
  }

  lemma OpenKeepsOrder(pol: Policy, s: State, c: Challenge, byAdmin: bool, checked: int, now: int)
    requires Inv(pol, s) && Problem(pol, s, c.request) == None && WellAsked(c.request)
    ensures OrderOk(WriteSession(pol, s, c, byAdmin, checked, now).log)
  {
    hide Problem, SessionsOk, RecordsOk, LatestOk, CoverOk, FirstHashOk, RequestOk, Newer;
    NoProblem(pol, s, c.request);
    var log := WriteSession(pol, s, c, byAdmin, checked, now).log;
    var n := |s.log|;
    forall i, j | 0 <= i < j < |log| && FirstTime(log[i]) && FirstTime(log[j])
      ensures Newer(log[j].session.request.version, log[i].session.request.version)
    {
      if j == n {
        assert log[i] in s.log;
        NewerTransitive(c.request.version, s.last.value, log[i].session.request.version);
      } else {
        assert log[i] == s.log[i] && log[j] == s.log[j];
      }
    }
  }

  /** Appending what is no asset signature keeps the others covered. */
  lemma CoverNext(pol: Policy, log: seq<Entry>, e: Entry)
    requires CoverOk(pol, log) && (pol.approval && AssetSignature(e) ==> Covered(pol, log, e))
    ensures CoverOk(pol, log + [e])
  {
    hide Covered;
    var all := log + [e];
    if pol.approval {
      forall i | 0 <= i < |all| && AssetSignature(all[i])
        ensures Covered(pol, all[..i], all[i])
      {
        if i < |log| {
          assert all[..i] == log[..i];
        } else {
          assert all[..i] == log;
        }
      }
    }
  }

  lemma OpenKeeps(pol: Policy, s: State, c: Challenge, byAdmin: bool, checked: int, now: int)
    requires Inv(pol, s) && Problem(pol, s, c.request) == None
    requires WellAsked(c.request) && c.maxSignatures == MaxSignatures(c.request)
    ensures Inv(pol, WriteSession(pol, s, c, byAdmin, checked, now))
  {
    hide Problem, SessionsOk, RecordsOk, LastOk, LatestOk, BasesOk, OrderOk, FirstHashOk, CoverOk, WellAsked, Newer,
      RequestOk, ListsWindows;
    NoProblem(pol, s, c.request);
    OpenKeepsSessions(pol, s, c, byAdmin, checked, now);
    OpenKeepsLast(pol, s, c, byAdmin, checked, now);
    OpenKeepsHashes(pol, s, c, byAdmin, checked, now);
    OpenKeepsLatest(pol, s, c, byAdmin, checked, now);
    OpenKeepsOrder(pol, s, c, byAdmin, checked, now);
    CoverNext(pol, s.log, WriteSession(pol, s, c, byAdmin, checked, now).log[|s.log|]);
  }

  lemma AdminKeeps(pol: Policy, s: State, r: Request, nonce: Nonce, now: int)
    requires Inv(pol, s)
    ensures Inv(pol, DoAdminApprove(pol, s, r, nonce, now).0)
  {
    hide Inv, Problem, WriteSession, WellAsked;
    if WellAsked(r) && Problem(pol, s, r) == None {
      OpenKeeps(pol, s, Challenge(r, MaxSignatures(r), nonce), true, now, now);
    }
  }

  // ── Challenges ──────────────────────────────────────────────────────────

  /** Issuing a challenge or using one up touches no session and no log line. */
  lemma ChallengesKeep(pol: Policy, s: State, t: State)
    requires Inv(pol, s) && t == s.(challenges := t.challenges) && RecordsOk(t)
    ensures Inv(pol, t)
  {
    hide SessionOk, Latest, Newer, CoverOk, OrderOk;
    assert forall v :: FirstOf(t, v) == FirstOf(s, v);
  }

  lemma AskKeeps(pol: Policy, s: State, r: Request, enrolled: bool, nonce: Nonce, now: int)
    requires Inv(pol, s)
    ensures Inv(pol, DoAsk(pol, s, r, enrolled, nonce, now).0)
  {
    hide Problem, SessionsOk, LastOk, LatestOk, BasesOk, OrderOk, FirstHashOk, CoverOk, WellAsked;
    var t := DoAsk(pol, s, r, enrolled, nonce, now).0;
    if t != s {
      ChallengesKeep(pol, s, t);
    }
  }

  lemma ApproveKeeps(pol: Policy, s: State, nonce: Nonce, checked: int, now: int, bytes: nat, verifies: bool)
    requires Inv(pol, s)
    ensures Inv(pol, DoApprove(pol, s, nonce, checked, now, bytes, verifies).0)
  {
    hide Problem, SessionsOk, LastOk, LatestOk, BasesOk, OrderOk, FirstHashOk, CoverOk, WellAsked, WriteSession;
    if nonce in s.challenges && !s.challenges[nonce].used {
      var rec := s.challenges[nonce];
      var c := rec.challenge;
      if checked <= rec.issued + pol.challengeMinutes * 60 {
        if verifies {
          var t := s.(challenges := s.challenges[nonce := rec.(used := true)]);
          ChallengesKeep(pol, s, t);
          if Problem(pol, t, c.request) == None {
            OpenKeeps(pol, t, c, false, checked, now);
          }
        } else {
          LineKeeps(pol, s, RefusedApproval(c.request.version));
        }
      }
    }
  }

  // ── Log lines and signatures ────────────────────────────────────────────

  /** A line that is neither an approval nor an asset signature. */
  lemma LineKeeps(pol: Policy, s: State, e: Entry)
    requires Inv(pol, s) && !e.Approved? && !AssetSignature(e)
    ensures Inv(pol, s.(log := s.log + [e]))
  {
    SignatureKeeps(pol, s, s.(log := s.log + [e]), e);
  }

  /** A line that opens no session, with sessions that differ in their counts only. */
  lemma SignatureKeeps(pol: Policy, s: State, t: State, e: Entry)
    requires Inv(pol, s) && !e.Approved? && t.log == s.log + [e] && t.challenges == s.challenges && t.last == s.last
    requires t.sessions.Keys == s.sessions.Keys
    requires forall v | v in s.sessions :: Opened(t.sessions[v]) == Opened(s.sessions[v])
    requires SessionsOk(pol, t) && FirstHashOk(t)
    requires pol.approval && AssetSignature(e) ==> Covered(pol, s.log, e)
    ensures Inv(pol, t)
  {
    hide SessionsOk, FirstHashOk, CoverOk, Latest, Covered, Newer, LatestOk;
    CoverNext(pol, s.log, e);
    LatestStays(s, t, e);
    forall v | v in s.sessions
      ensures t.sessions[v].request == s.sessions[v].request
    {
      assert Opened(t.sessions[v]).request == Opened(s.sessions[v]).request;
    }
  }

  lemma LatestStays(s: State, t: State, e: Entry)
    requires LatestOk(s) && !e.Approved? && t.log == s.log + [e] && t.sessions.Keys == s.sessions.Keys
    requires forall v | v in s.sessions :: Opened(t.sessions[v]) == Opened(s.sessions[v])
    ensures LatestOk(t)
  {
    forall v
      ensures Latest(t.log, v) == if v in t.sessions then Some(Opened(t.sessions[v])) else None
    {
      LatestNext(s.log, e, v);
    }
  }

  lemma PreflightKeeps(pol: Policy, s: State, v: Version, sha: Sha, at: int, signsU1: bool, signsU2: bool)
    requires Inv(pol, s)
    ensures Inv(pol, DoPreflight(s, v, sha, at, signsU1, signsU2).0)
  {
    hide Inv;
    if signsU1 {
      var e := Signed(v, U1, SELF_TEST, sha, at, false);
      LineKeeps(pol, s, e);
      LineKeeps(pol, s.(log := s.log + [e]), Signed(v, U2, SELF_TEST, sha, at, false));
    }
  }

  /** The first hash of an asset is written once; the others stay. */
  predicate Extends(first: map<Asset, Sha>, first': map<Asset, Sha>) {
    forall a | a in first :: a in first' && first'[a] == first[a]
  }

  lemma SessionStays(pol: Policy, first: map<Asset, Sha>, first': map<Asset, Sha>, v: Version, sess: Session)
    requires SessionOk(pol, first, v, sess) && Extends(first, first')
    ensures SessionOk(pol, first', v, sess)
  {}

  lemma SessionSigns(pol: Policy, first: map<Asset, Sha>, first': map<Asset, Sha>, v: Version, sess: Session, key: Key)
    requires SessionOk(pol, first, v, sess) && Extends(first, first')
    requires key !in sess.signed && KeyOk(first', sess.request.assets, key)
    ensures SessionOk(pol, first', v, sess.(count := sess.count + 1, signed := sess.signed + [key]))
  {}

  lemma FirstsKeepHashes(s: State, t: State, e: Entry)
    requires FirstHashOk(s) && t.log == s.log + [e]
    requires forall v :: Extends(FirstOf(s, v), FirstOf(t, v))
    requires AssetSignature(e) ==> e.asset in FirstOf(t, e.version) && FirstOf(t, e.version)[e.asset] == e.sha
    ensures FirstHashOk(t)
  {
    hide FirstOf;
    forall d | d in t.log && AssetSignature(d)
      ensures d.asset in FirstOf(t, d.version) && FirstOf(t, d.version)[d.asset] == d.sha
    {
      assert Extends(FirstOf(s, d.version), FirstOf(t, d.version));
    }
  }

  lemma SignKeeps(pol: Policy, s: State, slot: Slot, asset: Asset, v: Version, input: Option<Sha>, at: int,
                  evidence: bool, signs: bool)
    requires Inv(pol, s)
    ensures Inv(pol, DoSign(pol, s, slot, asset, v, input, at, evidence, signs).0)
  {
    hide Inv;
    var t := DoSign(pol, s, slot, asset, v, input, at, evidence, signs).0;
    if t.log == s.log {
      assert t == s;
    } else if !t.log[|s.log|].Signed? {
      LineKeeps(pol, s, t.log[|s.log|]);
    } else {
      SignedKeeps(pol, s, slot, asset, v, input.value, at);
    }
  }

  /** What a signature changes. */
  predicate Signs(pol: Policy, s: State, t: State, key: Key, v: Version) {
    && t.first == s.first[v := FirstOf(s, v)[key.asset := key.sha]]
    && t.sessions.Keys == s.sessions.Keys && t.last == s.last && t.challenges == s.challenges
    && (forall u | u in s.sessions && u != v :: t.sessions[u] == s.sessions[u])
    && (v in s.sessions ==>
          || t.sessions[v] == s.sessions[v]
          || (&& key.asset in s.sessions[v].request.assets && key !in s.sessions[v].signed
              && t.sessions[v] == s.sessions[v].(count := s.sessions[v].count + 1,
                                                 signed := s.sessions[v].signed + [key])))
  }

  lemma SignedIs(pol: Policy, s: State, slot: Slot, asset: Asset, v: Version, sha: Sha, at: int)
    requires asset != SELF_TEST && asset in pol.allowed(slot, v) && SessionProblem(pol, s, asset, v, at) == None
    requires asset in FirstOf(s, v) ==> FirstOf(s, v)[asset] == sha
    requires DoSign(pol, s, slot, asset, v, Some(sha), at, true, true).1 == Done
    ensures var t := DoSign(pol, s, slot, asset, v, Some(sha), at, true, true).0;
            && |t.log| == |s.log| + 1 && t.log == s.log + [t.log[|s.log|]]
            && (var e := t.log[|s.log|];
                e.Signed? && e.version == v && e.asset == asset && e.sha == sha && e.at == at)
            && Signs(pol, s, t, Key(slot, asset, sha), v)
  {
    var t := DoSign(pol, s, slot, asset, v, Some(sha), at, true, true).0;
    var first := FirstOf(s, v);
    if asset in first {
      assert first[asset := sha] == first;
      assert s.first[v := first] == s.first;
    }
  }

  lemma SignsKeepsSessions(pol: Policy, s: State, t: State, key: Key, v: Version)
    requires SessionsOk(pol, s) && Signs(pol, s, t, key, v)
    requires key.asset in FirstOf(s, v) ==> FirstOf(s, v)[key.asset] == key.sha
    ensures SessionsOk(pol, t)
  {
    hide SessionOk;
    assert FirstOf(t, v) == FirstOf(s, v)[key.asset := key.sha];
    assert forall u :: u != v ==> FirstOf(t, u) == FirstOf(s, u);
    forall u | u in t.sessions
      ensures SessionOk(pol, FirstOf(t, u), u, t.sessions[u])
    {
      assert SessionOk(pol, FirstOf(s, u), u, s.sessions[u]);
      if t.sessions[u] == s.sessions[u] {
        SessionStays(pol, FirstOf(s, u), FirstOf(t, u), u, s.sessions[u]);
      } else {
        SessionSigns(pol, FirstOf(s, u), FirstOf(t, u), u, s.sessions[u], key);
      }
    }
  }

  lemma SignedKeeps(pol: Policy, s: State, slot: Slot, asset: Asset, v: Version, sha: Sha, at: int)
    requires Inv(pol, s) && asset != SELF_TEST && asset in pol.allowed(slot, v)
    requires SessionProblem(pol, s, asset, v, at) == None
    requires asset in FirstOf(s, v) ==> FirstOf(s, v)[asset] == sha
    requires DoSign(pol, s, slot, asset, v, Some(sha), at, true, true).1 == Done
    ensures Inv(pol, DoSign(pol, s, slot, asset, v, Some(sha), at, true, true).0)
  {
    hide RecordsOk, LastOk, LatestOk, BasesOk, OrderOk, CoverOk, FirstHashOk, SessionsOk, DoSign, Covered;
    var t := DoSign(pol, s, slot, asset, v, Some(sha), at, true, true).0;
    SignedIs(pol, s, slot, asset, v, sha, at);
    var e, key := t.log[|s.log|], Key(slot, asset, sha);
    SignsKeepsSessions(pol, s, t, key, v);
    FirstsKeepHashes(s, t, e);
    if pol.approval {
      SignedIsCovered(pol, s, e);
    }
    SignatureKeeps(pol, s, t, e);
  }

  lemma SignedIsCovered(pol: Policy, s: State, e: Entry)
    requires Inv(pol, s) && pol.approval && e.Signed? && SessionProblem(pol, s, e.asset, e.version, e.at) == None
    ensures Covered(pol, s.log, e)
  {
    hide RecordsOk, LastOk, BasesOk, OrderOk, CoverOk, FirstHashOk, Latest;
    assert SessionOk(pol, FirstOf(s, e.version), e.version, s.sessions[e.version]);
    assert Latest(s.log, e.version) == Some(Opened(s.sessions[e.version]));
  }

  // ── Every run ───────────────────────────────────────────────────────────

  lemma StepKeepsInv(pol: Policy, s: State, verb: Verb)
    requires Inv(pol, s)
    ensures Inv(pol, Step(pol, s, verb).0)
  {
    hide Inv, DoAsk, DoApprove, DoAdminApprove, DoSign, DoPreflight;
    match verb
    case Ask(r, enrolled, nonce, now) => AskKeeps(pol, s, r, enrolled, nonce, now);
    case Approve(nonce, checked, now, bytes, verifies) => ApproveKeeps(pol, s, nonce, checked, now, bytes, verifies);
    case AdminApprove(r, nonce, now) => AdminKeeps(pol, s, r, nonce, now);
    case Sign(slot, asset, v, input, at, evidence, signs) =>
      SignKeeps(pol, s, slot, asset, v, input, at, evidence, signs);
    case Preflight(v, sha, at, signsU1, signsU2) => PreflightKeeps(pol, s, v, sha, at, signsU1, signsU2);
  }

  lemma EmptyInv(pol: Policy)
    ensures Inv(pol, Empty)
  {}

  lemma {:induction false} RunKeepsInv(pol: Policy, verbs: seq<Verb>)
    ensures Inv(pol, Run(pol, verbs))
  {
    hide Inv, Step;
    if verbs == [] {
      EmptyInv(pol);
    } else {
      var before := verbs[..|verbs| - 1];
      RunKeepsInv(pol, before);
      StepKeepsInv(pol, Run(pol, before), verbs[|verbs| - 1]);
    }
  }

  // ── Challenges, when random tokens do not repeat ────────────────────────

  lemma NoncesNext(pol: Policy, s: State, t: State, e: Entry)
    requires NoncesOk(pol, s) && t.log == s.log + [e] && UsedOk(pol, t, e)
    requires forall d | d in s.log :: UsedOk(pol, t, d)
    requires ByChallenge(e) ==> e.session.nonce in s.challenges && !s.challenges[e.session.nonce].used
    ensures NoncesOk(pol, t)
  {
    forall i, j | 0 <= i < j < |t.log| && ByChallenge(t.log[i]) && ByChallenge(t.log[j])
      ensures t.log[i].session.nonce != t.log[j].session.nonce
    {
      assert t.log[i] == s.log[i] && UsedOk(pol, s, s.log[i]);
    }
  }

  lemma NoncesStay(pol: Policy, s: State, t: State)
    requires NoncesOk(pol, s)
    requires forall n | n in s.challenges && s.challenges[n].used ::
               n in t.challenges && t.challenges[n] == s.challenges[n]
    ensures forall d | d in s.log :: UsedOk(pol, t, d)
  {
    forall d | d in s.log
      ensures UsedOk(pol, t, d)
    {
      assert UsedOk(pol, s, d);
    }
  }

  lemma ApproveKeepsNonces(pol: Policy, s: State, nonce: Nonce, checked: int, now: int, bytes: nat, verifies: bool)
    requires NoncesOk(pol, s)
    ensures NoncesOk(pol, DoApprove(pol, s, nonce, checked, now, bytes, verifies).0)
    requires RecordsOk(s)
  {
    hide Problem, NoncesOk;
    var t := DoApprove(pol, s, nonce, checked, now, bytes, verifies).0;
    NoncesStay(pol, s, t);
    if t.log == s.log {
      NoncesSame(pol, s, t);
    } else {
      NoncesNext(pol, s, t, t.log[|s.log|]);
    }
  }

  lemma NoncesSame(pol: Policy, s: State, t: State)
    requires NoncesOk(pol, s) && t.log == s.log && forall d | d in s.log :: UsedOk(pol, t, d)
    ensures NoncesOk(pol, t)
  {}

  /** A signature or its refusal leaves the challenges and approves nothing. */
  lemma SignAdds(pol: Policy, s: State, slot: Slot, asset: Asset, v: Version, input: Option<Sha>, at: int,
                 evidence: bool, signs: bool)
    ensures var t := DoSign(pol, s, slot, asset, v, input, at, evidence, signs).0;
            && t.challenges == s.challenges && s.log <= t.log
            && forall i | |s.log| <= i < |t.log| :: !t.log[i].Approved?
  {
    hide SessionProblem;
  }

  lemma StepKeepsNonces(pol: Policy, s: State, verb: Verb)
    requires NoncesOk(pol, s) && RecordsOk(s) && FreshToken(s, verb)
    ensures NoncesOk(pol, Step(pol, s, verb).0)
  {
    hide NoncesOk, UsedOk, Problem, SessionProblem, RecordsOk, DoApprove, DoSign, WellAsked, Newer;
    var t := Step(pol, s, verb).0;
    if verb.Approve? {
      ApproveKeepsNonces(pol, s, verb.nonce, verb.checked, verb.now, verb.bytes, verb.verifies);
    } else {
      if verb.Sign? {
        SignAdds(pol, s, verb.slot, verb.asset, verb.version, verb.input, verb.at, verb.evidence, verb.signs);
      }
      NoncesStay(pol, s, t);
      LinesKeepNonces(pol, s, t);
    }
  }

  lemma LinesKeepNonces(pol: Policy, s: State, t: State)
    requires NoncesOk(pol, s) && s.log <= t.log && forall d | d in s.log :: UsedOk(pol, t, d)
    requires forall i | |s.log| <= i < |t.log| :: !ByChallenge(t.log[i])
    ensures NoncesOk(pol, t)
  {
    assert forall i | 0 <= i < |s.log| :: t.log[i] == s.log[i];
  }

  /** A challenge opens at most one session, the one it asked for, and only
      while its approval window is open. */
  lemma {:induction false} ChallengeOpensOnce(pol: Policy, verbs: seq<Verb>)
    requires FreshTokens(pol, verbs)
    ensures NoncesOk(pol, Run(pol, verbs))
  {
    hide NoncesOk, Step, RecordsOk;
    if verbs == [] {
      NoLines(pol);
    } else {
      var before := verbs[..|verbs| - 1];
      forall k | 0 <= k < |before|
        ensures FreshToken(Run(pol, before[..k]), before[k])
      {
        assert before[..k] == verbs[..k];
      }
      ChallengeOpensOnce(pol, before);
      RunKeepsInv(pol, before);
      StepKeepsNonces(pol, Run(pol, before), verbs[|verbs| - 1]);
    }
  }

  lemma NoLines(pol: Policy)
    ensures NoncesOk(pol, Empty)
  {}

  // ── What the runs guarantee ─────────────────────────────────────────────

  /** All asset signatures for one version and asset are over one sha256, across
      slots, repeats, re-approvals and expiries. */
  lemma OneHashPerAsset(pol: Policy, verbs: seq<Verb>, d: Entry, e: Entry)
    requires d in Run(pol, verbs).log && e in Run(pol, verbs).log
    requires AssetSignature(d) && AssetSignature(e) && d.version == e.version && d.asset == e.asset
    ensures d.sha == e.sha
  {
    hide SessionsOk, RecordsOk, LastOk, LatestOk, BasesOk, OrderOk, CoverOk, Run, FirstOf;
    RunKeepsInv(pol, verbs);
  }

  lemma {:induction false} DistinctSize<T>(xs: seq<T>)
    requires Distinct(xs)
    ensures |(set x | x in xs)| == |xs|
  {
    if xs != [] {
      var n := |xs| - 1;
      DistinctSize(xs[..n]);
      assert (set x | x in xs) == (set x | x in xs[..n]) + {xs[n]};
    }
  }

  /** Two keys an asset at most: one hash, two slots. */
  lemma {:induction false} KeysBound(first: map<Asset, Sha>, assets: seq<Asset>, keys: set<Key>)
    requires forall k | k in keys :: KeyOk(first, assets, k)
    ensures |keys| <= 2 * |assets|
  {
    if assets == [] {
      assert keys == {};
    } else {
      var n := |assets| - 1;
      var a := assets[n];
      assert forall x | x in assets && x != a :: x in assets[..n];
      var both := if a in first then {Key(U1, a, first[a]), Key(U2, a, first[a])} else {};
      assert |both| <= 2;
      forall k | k in keys - both
        ensures KeyOk(first, assets[..n], k)
      {
        assert KeyOk(first, assets, k);
        assert k.slot == U1 || k.slot == U2;
      }
      KeysBound(first, assets[..n], keys - both);
      SubsetSize(keys, (keys - both) + both);
    }
  }

  /** A session counts its distinct signatures, two an asset at most, so the
      refusal for having reached its signatures never comes. */
  lemma CountIsBounded(pol: Policy, verbs: seq<Verb>, v: Version)
    requires v in Run(pol, verbs).sessions
    ensures var sess := Run(pol, verbs).sessions[v];
            && sess.count == |(set k | k in sess.signed)| <= 2 * |sess.request.assets|
            && sess.maxSignatures == 2 * |sess.request.assets| + 4
  {
    hide RecordsOk, LastOk, LatestOk, BasesOk, OrderOk, CoverOk, FirstHashOk, Run, RequestOk;
    RunKeepsInv(pol, verbs);
    var s := Run(pol, verbs);
    var sess := s.sessions[v];
    assert SessionOk(pol, FirstOf(s, v), v, sess);
    DistinctSize(sess.signed);
    KeysBound(FirstOf(s, v), sess.request.assets, set k | k in sess.signed);
  }

  lemma NeverExhausted(pol: Policy, verbs: seq<Verb>, verb: Verb)
    ensures Step(pol, Run(pol, verbs), verb).1 != Refused(Exhausted)
  {
    hide Run, WriteSession, Problem;
    if verb.Sign? && verb.version in Run(pol, verbs).sessions {
      CountIsBounded(pol, verbs, verb.version);
    }
    ProblemKinds(pol);
  }

  lemma ProblemKinds(pol: Policy)
    ensures forall s, r :: Problem(pol, s, r) != Some(Exhausted)
  {
    forall s, r
      ensures Problem(pol, s, r) != Some(Exhausted)
    {
      FirstProblemKinds(pol, r, r.assets);
    }
  }

  lemma {:induction false} FirstProblemKinds(pol: Policy, r: Request, assets: seq<Asset>)
    ensures FirstProblem(pol, r, assets) != Some(Exhausted)
  {
    if assets != [] {
      FirstProblemKinds(pol, r, assets[1..]);
    }
  }

  /** With approval on, every asset signature follows an approval of its version,
      and the latest before it lists the asset, had not expired when the session
      was checked, and says Windows exactly when it lists a Windows asset. */
  lemma SignaturesAreApproved(pol: Policy, verbs: seq<Verb>, i: nat)
    requires pol.approval && i < |Run(pol, verbs).log| && AssetSignature(Run(pol, verbs).log[i])
    ensures var log := Run(pol, verbs).log; Covered(pol, log[..i], log[i])
  {
    hide SessionsOk, RecordsOk, LastOk, LatestOk, BasesOk, OrderOk, FirstHashOk, Run, Covered;
    RunKeepsInv(pol, verbs);
  }

  /** `last_version` is the greatest version with a session. */
  lemma LastIsGreatest(pol: Policy, verbs: seq<Verb>)
    ensures LastOk(Run(pol, verbs))
  {
    hide Run, LastOk;
    RunKeepsInv(pol, verbs);
  }

  predicate Approves(e: Entry, v: Version) { e.Approved? && e.session.request.version == v }

  /** No approval of the version stands before line `i`. */
  predicate NoneBefore(log: seq<Entry>, i: nat, v: Version)
    requires i <= |log|
  {
    forall k | 0 <= k < i :: !Approves(log[k], v)
  }

  /** An approval's flag is off exactly when it is its version's first. */
  predicate FlagTells(log: seq<Entry>, i: nat)
    requires i < |log|
  {
    log[i].Approved? ==> (FirstTime(log[i]) <==> NoneBefore(log, i, log[i].session.request.version))
  }

  lemma {:induction false} LatestTells(log: seq<Entry>, v: Version)
    ensures Latest(log, v) == None <==> NoneBefore(log, |log|, v)
  {
    if log != [] {
      LatestTells(log[..|log| - 1], v);
    }
  }

  /** Only an approval adds a line of its kind, and its flag tells whether the
      version had a session. */
  predicate Adds(s: State, t: State) {
    && s.log <= t.log
    && forall i | |s.log| <= i < |t.log| && t.log[i].Approved? ::
         i == |s.log| && (FirstTime(t.log[i]) <==> t.log[i].session.request.version !in s.sessions)
  }

  lemma AdminAdds(pol: Policy, s: State, r: Request, nonce: Nonce, now: int)
    ensures Adds(s, DoAdminApprove(pol, s, r, nonce, now).0)
  {
    hide FirstProblem, ListsWindows, WellAsked, Newer;
  }

  lemma ApproveAdds(pol: Policy, s: State, nonce: Nonce, checked: int, now: int, bytes: nat, verifies: bool)
    ensures Adds(s, DoApprove(pol, s, nonce, checked, now, bytes, verifies).0)
  {
    hide FirstProblem, ListsWindows, Newer;
  }

  lemma StepAdds(pol: Policy, s: State, verb: Verb)
    ensures Adds(s, Step(pol, s, verb).0)
  {
    hide DoAdminApprove, DoApprove, DoSign, Problem, WellAsked;
    match verb
    case Approve(nonce, checked, now, bytes, verifies) => ApproveAdds(pol, s, nonce, checked, now, bytes, verifies);
    case AdminApprove(r, nonce, now) => AdminAdds(pol, s, r, nonce, now);
    case Sign(slot, asset, v, input, at, evidence, signs) =>
      SignAdds(pol, s, slot, asset, v, input, at, evidence, signs);
    case _ =>
  }

  lemma FlagTellsOn(s: State, t: State, i: nat)
    requires LatestOk(s) && Adds(s, t) && |s.log| <= i < |t.log|
    ensures FlagTells(t.log, i)
  {
    hide Latest;
    if t.log[i].Approved? {
      var v := t.log[i].session.request.version;
      LatestTells(s.log, v);
      assert Latest(s.log, v) == if v in s.sessions then Some(Opened(s.sessions[v])) else None;
      assert forall k | 0 <= k < i :: t.log[k] == s.log[k];
    }
  }

  /** In every run an approval goes without the flag exactly when the log before
      it holds no approval of its version. */
  lemma {:induction false} FlagMarksTheFirst(pol: Policy, verbs: seq<Verb>, i: nat)
    requires i < |Run(pol, verbs).log|
    ensures FlagTells(Run(pol, verbs).log, i)
  {
    hide Step, Adds, Inv;
    if verbs != [] {
      var before := verbs[..|verbs| - 1];
      var s, t := Run(pol, before), Run(pol, verbs);
      StepAdds(pol, s, verbs[|verbs| - 1]);
      RunKeepsInv(pol, before);
      AddsGrows(s, t);
      if i < |s.log| {
        FlagMarksTheFirst(pol, before, i);
        FlagStays(s.log, t.log, i);
      } else {
        LatestOf(pol, s);
        FlagTellsOn(s, t, i);
      }
    }
  }

  lemma AddsGrows(s: State, t: State)
    requires Adds(s, t)
    ensures s.log <= t.log
  {}

  lemma FlagStays(a: seq<Entry>, b: seq<Entry>, i: nat)
    requires a <= b && i < |a| && FlagTells(a, i)
    ensures FlagTells(b, i)
  {
    assert forall k | 0 <= k <= i :: a[k] == b[k];
  }

  lemma LatestOf(pol: Policy, s: State)
    requires Inv(pol, s)
    ensures LatestOk(s)
  {}

  /** The first approvals of versions come in strictly increasing version order. */
  lemma FirstTimesIncrease(pol: Policy, verbs: seq<Verb>, i: nat, j: nat)
    requires i < j < |Run(pol, verbs).log|
    ensures var log := Run(pol, verbs).log;
            log[i].Approved? && NoneBefore(log, i, log[i].session.request.version)
            && log[j].Approved? && NoneBefore(log, j, log[j].session.request.version)
            ==> Newer(log[j].session.request.version, log[i].session.request.version)
  {
    hide Run, NoneBefore, Newer;
    RunKeepsInv(pol, verbs);
    FlagMarksTheFirst(pol, verbs, i);
    FlagMarksTheFirst(pol, verbs, j);
    hide SessionsOk, RecordsOk, LastOk, LatestOk, BasesOk, CoverOk, FirstHashOk;
  }

  /** A version keeps its base commit over every re-approval. */
  lemma BaseNeverChanges(pol: Policy, verbs: seq<Verb>, d: Entry, e: Entry)
    requires d in Run(pol, verbs).log && e in Run(pol, verbs).log
    requires d.Approved? && e.Approved? && d.session.request.version == e.session.request.version
    ensures d.session.request.base == e.session.request.base
  {
    hide SessionsOk, RecordsOk, LastOk, LatestOk, OrderOk, CoverOk, FirstHashOk, Run;
    RunKeepsInv(pol, verbs);
  }

  /** In every reachable state a signature is given exactly when the asset is
      signable, its version's session is open and lists it, its bytes are the
      first ones seen, the evidence is there and the tool signs. Neither the
      session's limit nor its Windows rule ever stands in the way. */
  lemma SignsExactlyWhen(pol: Policy, verbs: seq<Verb>, slot: Slot, asset: Asset, v: Version, input: Option<Sha>,
                         at: int, evidence: bool, signs: bool)
    ensures var s := Run(pol, verbs);
            var (t, reply) := DoSign(pol, s, slot, asset, v, input, at, evidence, signs);
            && (reply == Done <==>
                  && asset != SELF_TEST && asset in pol.allowed(slot, v)
                  && (pol.approval ==>
                        v in s.sessions && at <= s.sessions[v].expires && asset in s.sessions[v].request.assets)
                  && input.Some? && (asset in FirstOf(s, v) ==> FirstOf(s, v)[asset] == input.value)
                  && evidence && signs)
            && (reply == Done ==> asset in FirstOf(t, v) && FirstOf(t, v)[asset] == input.value)
            && (reply != Done ==> t.first == s.first && t.sessions == s.sessions)
  {
    hide Run, Inv, SessionProblem;
    var s := Run(pol, verbs);
    NeverExhausted(pol, verbs, Sign(slot, asset, v, input, at, evidence, signs));
    SessionServes(pol, verbs, asset, v, at);
  }

  /** In every reachable state the session's Windows rule never decides. */
  lemma SessionServes(pol: Policy, verbs: seq<Verb>, asset: Asset, v: Version, at: int)
    ensures var s := Run(pol, verbs);
            SessionProblem(pol, s, asset, v, at) == None <==>
            (pol.approval ==>
               v in s.sessions && at <= s.sessions[v].expires && asset in s.sessions[v].request.assets)
  {
    hide Run, Distinct, CoverOk, LatestOk, OrderOk, BasesOk, FirstHashOk, LastOk, RecordsOk;
    var s := Run(pol, verbs);
    RunKeepsInv(pol, verbs);
    if pol.approval && v in s.sessions {
      assert SessionOk(pol, FirstOf(s, v), v, s.sessions[v]);
    }
  }

  /** From any state, a challenge that is given and then approved in time opens
      exactly the session that was asked for, and the same approval is refused
      from then on. */
  lemma ApprovalOpensWhatWasAsked(pol: Policy, s: State, r: Request, enrolled: bool, nonce: Nonce, asked: int,
                                  checked: int, now: int, bytes: nat)
    requires DoAsk(pol, s, r, enrolled, nonce, asked).1 == Done
    requires checked <= asked + pol.challengeMinutes * 60 && 1 <= bytes <= 1024
    ensures var t := DoAsk(pol, s, r, enrolled, nonce, asked).0;
            var (u, reply) := DoApprove(pol, t, nonce, checked, now, bytes, true);
            var session := Session(r, 2 * |r.assets| + 4, now, now + pol.sessionHours * 3600, nonce, false, 0, []);
            && reply == Done && u.sessions == s.sessions[r.version := session]
            && u.first == s.first && u.log == s.log + [Approved(session, checked)]
            && forall checked', now', bytes', verifies ::
                 DoApprove(pol, u, nonce, checked', now', bytes', verifies) == (u, Refused(ChallengeUsed))
  {
    hide FirstProblem;
    var t := DoAsk(pol, s, r, enrolled, nonce, asked).0;
    assert Problem(pol, t, r) == Problem(pol, s, r) == None;
  }
}
