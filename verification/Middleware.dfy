/** The middleware in front of an origin: it discovers a turbocharged subtree from the header of an
    answer, and asks the origin again ("ping") once the discovery is five seconds old. All
    interleavings of requests and ping goroutines, with time passing in between. */
module Middleware {
  import opened Wrappers
  import opened ObjectIDs

  type Tid = nat

  /** Milliseconds. */
  type Time = nat

  const VALIDITY: Time := 5000

  /** What the atomic `discovered` holds; a detachment stores a typed nil, which is not "never". */
  datatype Slot = Never | Detached | Attached(disc: nat)

  /** A discovery; `root` numbers the initial attachment it descends from by pings. */
  datatype Disc = Disc(created: Time, root: nat, subtree: Subtree)

  datatype Visit =
    | Idle
    | Checking(disc: nat, path: string)  // will be served from this discovery, validity not checked yet
    | AtOrigin(path: string)             // the origin is answering
    | Advertised(sub: Subtree)           // it advertised this subtree
    | WillAttach(sub: Subtree)           // `discovered` had never been stored to
    | Storing(disc: nat)                 // has made this discovery
    | WillDetach                         // the advertisement conflicts with the discovery

  datatype Ping =
    | Spawned
    | Sent
    | WillReload(sub: Subtree)
    | Replacing(disc: nat)
    | Failed
    | Finished

  datatype Sending = Sending(at: Time, disc: nat, root: nat)

  /** A visit served from a discovery, with the time of its validity check. */
  datatype Serving = Serving(path: string, disc: nat, at: Time, late: bool)

  /** `pings` has an entry for a discovery once its `pingCheckOnce` was used. The last three fields
      are history. */
  datatype MState = MState(
    now: Time,
    slot: Slot,
    discs: seq<Disc>,
    roots: nat,
    visits: map<Tid, Visit>,
    pings: map<nat, Ping>,
    sent: seq<Sending>,
    served: seq<Serving>,
    advertised: set<Subtree>)
  {
    function Visit(t: Tid): Visit {
      if t in visits then visits[t] else Idle
    }

    function Goto(t: Tid, v: Visit): MState {
      this.(visits := visits[t := v])
    }

    function PingGoto(d: nat, p: Ping): MState {
      this.(pings := pings[d := p])
    }
  }

  /** `late`: the timer has not closed the channel yet, although the five seconds are over. */
  datatype MEvent =
    | Tick(d: Time)
    | Arrive(t: Tid, path: string)
    | CheckValidity(t: Tid, late: bool)
    | OriginReplies(t: Tid, header: string)
    | LoadAgain(t: Tid)
    | Attach(t: Tid)
    | Store(t: Tid)
    | PingNotBuilt(d: nat)
    | SendPing(d: nat)
    | PingReplies(d: nat, status: nat, header: string)
    | Reload(d: nat)
    | FinishPing(d: nat)

  function MStart(): MState {
    MState(0, Never, [], 0, map[], map[], [], [], {})
  }

  function MStep(s: MState, e: MEvent): Option<MState> {
    match e
    case Tick(d) => Some(s.(now := s.now + d))
    case Arrive(t, path) => if s.Visit(t).Idle? then Some(ArriveStep(s, t, path)) else None
    case CheckValidity(t, late) => CheckStep(s, t, late)
    case OriginReplies(t, header) => if s.Visit(t).AtOrigin? then Some(ReplyStep(s, t, header)) else None
    case LoadAgain(t) => if s.Visit(t).Advertised? then LoadStep(s, t, s.Visit(t).sub) else None
    case Attach(t) =>
      if s.Visit(t).WillAttach? then
        Some(s.Goto(t, Storing(|s.discs|)).(discs := s.discs + [Disc(s.now, s.roots, s.Visit(t).sub)], roots := s.roots + 1))
      else None
    case Store(t) => StoreStep(s, t)
    case PingNotBuilt(d) => if d in s.pings && s.pings[d].Spawned? then Some(s.PingGoto(d, Failed)) else None
    case SendPing(d) => SendStep(s, d)
    case PingReplies(d, status, header) => PingReplyStep(s, d, status, header)
    case Reload(d) => ReloadStep(s, d)
    case FinishPing(d) => FinishStep(s, d)
  }

  function ArriveStep(s: MState, t: Tid, path: string): MState {
    if s.slot.Attached? && s.slot.disc < |s.discs| && s.discs[s.slot.disc].subtree.prefix <= path then
      s.Goto(t, Checking(s.slot.disc, path))
    else s.Goto(t, AtOrigin(path))
  }

  function CheckStep(s: MState, t: Tid, late: bool): Option<MState> {
    if !s.Visit(t).Checking? || s.Visit(t).disc >= |s.discs| then None
    else
      var Checking(d, path) := s.Visit(t);
      var s' := s.Goto(t, Idle).(served := s.served + [Serving(path, d, s.now, late)]);
      Some(if s.now >= s.discs[d].created + VALIDITY && !late && d !in s.pings then s'.PingGoto(d, Spawned) else s')
  }

  /** A header without a space is indexed out of range, which ends the request. */
  function ReplyStep(s: MState, t: Tid, header: string): MState {
    if header == "" || ' ' !in header then s.Goto(t, Idle)
    else
      match ParseHeader(header)
      case Err(_) => s.Goto(t, Idle)
      case Ok(sub) => s.Goto(t, Advertised(sub)).(advertised := s.advertised + {sub})
  }

  /** After a detachment the comparison dereferences nil, which ends the request. */
  function LoadStep(s: MState, t: Tid, sub: Subtree): Option<MState> {
    match s.slot
    case Never => Some(s.Goto(t, WillAttach(sub)))
    case Detached => Some(s.Goto(t, Idle))
    case Attached(d) =>
      if d >= |s.discs| then None
      else Some(s.Goto(t, if s.discs[d].subtree == sub then Idle else WillDetach))
  }

  function StoreStep(s: MState, t: Tid): Option<MState> {
    match s.Visit(t)
    case Storing(d) => Some(s.Goto(t, Idle).(slot := Attached(d)))
    case WillDetach => Some(s.Goto(t, Idle).(slot := Detached))
    case _ => None
  }

  function SendStep(s: MState, d: nat): Option<MState> {
    if d in s.pings && s.pings[d].Spawned? && d < |s.discs| then
      Some(s.PingGoto(d, Sent).(sent := s.sent + [Sending(s.now, d, s.discs[d].root)]))
    else None
  }

  /** In the goroutine of a ping, a header without a space ends the process, and with it the run. */
  function PingReplyStep(s: MState, d: nat, status: nat, header: string): Option<MState> {
    if d !in s.pings || !s.pings[d].Sent? then None
    else if status != 200 || header == "" then Some(s.PingGoto(d, Failed))
    else if ' ' !in header then None
    else
      match ParseHeader(header)
      case Err(_) => Some(s.PingGoto(d, Failed))
      case Ok(sub) => Some(s.PingGoto(d, WillReload(sub)).(advertised := s.advertised + {sub}))
  }

  function ReloadStep(s: MState, d: nat): Option<MState> {
    if d in s.pings && s.pings[d].WillReload? && d < |s.discs| then
      Some(s.PingGoto(d, Replacing(|s.discs|)).(discs := s.discs + [Disc(s.now, s.discs[d].root, s.pings[d].sub)]))
    else None
  }

  function FinishStep(s: MState, d: nat): Option<MState> {
    if d !in s.pings then None
    else
      match s.pings[d]
      case Replacing(e) => Some(s.PingGoto(d, Finished).(slot := Attached(e)))
      case Failed => Some(s.PingGoto(d, Finished).(slot := Detached))
      case _ => None
  }

  ghost predicate MNextAt(r: seq<MState>, i: nat)
    requires i < |r| - 1
  {
    exists e :: MStep(r[i], e) == Some(r[i + 1])
  }

  ghost predicate IsMRun(r: seq<MState>) {
    |r| > 0 && r[0] == MStart() && forall i :: 0 <= i < |r| - 1 ==> MNextAt(r, i)
  }

  // --- the invariant ---

  /** Its ping has not reached the origin yet. */
  predicate Unsent(s: MState, d: nat) {
    d in s.pings ==> s.pings[d].Spawned?
  }

  /** It may still get a successor. */
  predicate Open(s: MState, d: nat) {
    d in s.pings ==> s.pings[d].Spawned? || s.pings[d].Sent? || s.pings[d].WillReload?
  }

  predicate DiscOk(s: MState, d: nat)
    requires d < |s.discs|
  {
    s.discs[d].created <= s.now && s.discs[d].root < s.roots && s.discs[d].subtree in s.advertised
  }

  predicate VisitOk(s: MState, t: Tid) {
    match s.Visit(t)
    case Checking(d, path) => d < |s.discs| && s.discs[d].subtree.prefix <= path
    case Storing(d) => d < |s.discs|
    case Advertised(sub) => sub in s.advertised
    case WillAttach(sub) => sub in s.advertised
    case _ => true
  }

  predicate PingOk(s: MState, d: nat)
    requires d in s.pings
  {
    && d < |s.discs|
    && (s.pings[d].Spawned? ==> s.now >= s.discs[d].created + VALIDITY)
    && (s.pings[d].WillReload? ==> s.pings[d].sub in s.advertised)
    && (s.pings[d].Replacing? ==> s.pings[d].disc < |s.discs|)
  }

  /** Of the discoveries that descend from one attachment, at most one can still get a successor. */
  predicate OneOpen(s: MState, d: nat, e: nat)
    requires d < |s.discs| && e < |s.discs|
  {
    d != e && s.discs[d].root == s.discs[e].root ==> !(Open(s, d) && Open(s, e))
  }

  predicate SendingOk(s: MState, p: Sending) {
    && p.at <= s.now && p.disc < |s.discs| && p.root == s.discs[p.disc].root
    && p.at >= s.discs[p.disc].created + VALIDITY && !Unsent(s, p.disc)
  }

  /** What was sent in the line of `d` was sent before `d` was made, until `d` sends. */
  predicate Before(s: MState, p: Sending, d: nat)
    requires d < |s.discs|
  {
    p.root == s.discs[d].root && Unsent(s, d) ==> p.at <= s.discs[d].created
  }

  predicate Apart(p: Sending, q: Sending) {
    p.disc != q.disc && (p.root == q.root ==> p.at + VALIDITY <= q.at)
  }

  predicate ServedOk(s: MState, x: Serving) {
    && x.disc < |s.discs| && s.discs[x.disc].subtree.prefix <= x.path
    && (x.at >= s.discs[x.disc].created + VALIDITY && !x.late ==> x.disc in s.pings)
  }

  /** The part about requests. */
  ghost predicate VisitsOk(s: MState) {
    && (s.slot.Attached? ==> s.slot.disc < |s.discs|)
    && (forall t :: VisitOk(s, t))
    && (forall i :: 0 <= i < |s.served| ==> ServedOk(s, s.served[i]))
  }

  /** The part about discoveries and pings. */
  ghost predicate LinesOk(s: MState) {
    && (forall d :: 0 <= d < |s.discs| ==> DiscOk(s, d))
    && (forall d :: d in s.pings ==> PingOk(s, d))
    && (forall d, e :: 0 <= d < |s.discs| && 0 <= e < |s.discs| ==> OneOpen(s, d, e))
    && (forall i :: 0 <= i < |s.sent| ==> SendingOk(s, s.sent[i]))
    && (forall i, d :: 0 <= i < |s.sent| && 0 <= d < |s.discs| ==> Before(s, s.sent[i], d))
    && (forall i, j :: 0 <= i < j < |s.sent| ==> Apart(s.sent[i], s.sent[j]))
  }

  ghost predicate MInv(s: MState) {
    VisitsOk(s) && LinesOk(s)
  }

  lemma StepGrows(s: MState, e: MEvent, s': MState)
    requires MStep(s, e) == Some(s')
    ensures s.now <= s'.now && s.discs <= s'.discs && s.advertised <= s'.advertised && s.pings.Keys <= s'.pings.Keys
  {
  }

  lemma SlotStaysOk(s: MState, e: MEvent, s': MState)
    requires MInv(s) && MStep(s, e) == Some(s')
    ensures s'.slot.Attached? ==> s'.slot.disc < |s'.discs|
  {
    StepGrows(s, e, s');
    if e.FinishPing? {
      assert PingOk(s, e.d);
    } else if e.Store? {
      assert VisitOk(s, e.t);
    }
  }

  lemma ServedStaysOk(s: MState, e: MEvent, s': MState, i: nat)
    requires MInv(s) && MStep(s, e) == Some(s') && i < |s'.served|
    ensures ServedOk(s', s'.served[i])
  {
    StepGrows(s, e, s');
    if i < |s.served| {
      assert ServedOk(s, s.served[i]);
    } else {
      assert VisitOk(s, e.t) && DiscOk(s, s.Visit(e.t).disc);
    }
  }

  lemma MStepKeepsVisits(s: MState, e: MEvent, s': MState)
    requires MInv(s) && MStep(s, e) == Some(s')
    ensures VisitsOk(s')
  {
    StepGrows(s, e, s');
    SlotStaysOk(s, e, s');
    forall t
      ensures VisitOk(s', t)
    {
      assert VisitOk(s, t);
      if s'.Visit(t) == s.Visit(t) { VisitStaysOk(s, s', t); } else { MoverOk(s, e, s', t); }
    }
    forall i | 0 <= i < |s'.served|
      ensures ServedOk(s', s'.served[i])
    {
      ServedStaysOk(s, e, s', i);
    }
  }

  lemma VisitStaysOk(s: MState, s': MState, t: Tid)
    requires VisitOk(s, t) && s'.Visit(t) == s.Visit(t) && s.discs <= s'.discs && s.advertised <= s'.advertised
    ensures VisitOk(s', t)
  {
  }

  lemma MoverOk(s: MState, e: MEvent, s': MState, t: Tid)
    requires VisitOk(s, t) && MStep(s, e) == Some(s') && s'.Visit(t) != s.Visit(t)
    ensures VisitOk(s', t)
  {
  }

  /** Steps that neither make a discovery nor send a ping. */
  predicate SameLines(s: MState, s': MState) {
    && s.now <= s'.now && s.discs == s'.discs && s.roots == s'.roots
    && s.advertised <= s'.advertised && s.sent == s'.sent
  }

  lemma FrameKeepsLines(s: MState, s': MState)
    requires LinesOk(s) && SameLines(s, s')
    requires forall d :: 0 <= d < |s.discs| ==> (Unsent(s', d) ==> Unsent(s, d)) && (Open(s', d) ==> Open(s, d))
    requires forall d :: d in s'.pings ==> PingOk(s', d)
    ensures LinesOk(s')
  {
    forall d, e | 0 <= d < |s'.discs| && 0 <= e < |s'.discs|
      ensures OneOpen(s', d, e)
    {
      assert OneOpen(s, d, e);
    }
    forall i, d | 0 <= i < |s'.sent| && 0 <= d < |s'.discs|
      ensures Before(s', s'.sent[i], d)
    {
      assert Before(s, s.sent[i], d);
    }
    forall d | 0 <= d < |s'.discs|
      ensures DiscOk(s', d)
    {
      assert DiscOk(s, d);
    }
  }

  lemma PingStaysOk(s: MState, e: MEvent, s': MState, d: nat)
    requires MInv(s) && MStep(s, e) == Some(s') && SameLines(s, s') && d in s'.pings
    ensures PingOk(s', d)
  {
    if d in s.pings {
      assert PingOk(s, d);
    }
  }

  lemma QuietPings(s: MState, e: MEvent, s': MState, d: nat)
    requires MStep(s, e) == Some(s') && !e.SendPing?
    ensures Unsent(s', d) ==> Unsent(s, d)
    ensures Open(s', d) ==> Open(s, d)
  {
  }

  lemma QuietStepKeepsLines(s: MState, e: MEvent, s': MState)
    requires MInv(s) && MStep(s, e) == Some(s') && !e.Attach? && !e.SendPing? && !e.Reload?
    ensures LinesOk(s')
  {
    assert SameLines(s, s');
    forall d: nat
      ensures Unsent(s', d) ==> Unsent(s, d)
      ensures Open(s', d) ==> Open(s, d)
    {
      QuietPings(s, e, s', d);
    }
    forall d | d in s'.pings
      ensures PingOk(s', d)
    {
      PingStaysOk(s, e, s', d);
    }
    FrameKeepsLines(s, s');
  }

  /** Whatever was sent before in the line of `d` was sent five seconds before `d` sends. */
  lemma SendsApart(s: MState, d: nat, s': MState, i: nat)
    requires MInv(s) && MStep(s, SendPing(d)) == Some(s') && i < |s.sent|
    ensures Apart(s.sent[i], s'.sent[|s.sent|])
  {
    assert PingOk(s, d) && SendingOk(s, s.sent[i]) && Before(s, s.sent[i], d);
  }

  lemma SendKeepsLines(s: MState, d: nat, s': MState)
    requires MInv(s) && MStep(s, SendPing(d)) == Some(s')
    ensures LinesOk(s')
  {
    assert PingOk(s, d);
    var n := |s.sent|;
    forall i, j | 0 <= i < j < |s'.sent|
      ensures Apart(s'.sent[i], s'.sent[j])
    {
      if j == n { SendsApart(s, d, s', i); } else { assert Apart(s.sent[i], s.sent[j]); }
    }
    forall i, e | 0 <= i < |s'.sent| && 0 <= e < |s'.discs|
      ensures Before(s', s'.sent[i], e)
    {
      assert OneOpen(s, d, e);
      if i < n { assert Before(s, s.sent[i], e); }
    }
    forall i | 0 <= i < |s'.sent|
      ensures SendingOk(s', s'.sent[i])
    {
      if i < n { assert SendingOk(s, s.sent[i]); }
    }
    forall e, f | 0 <= e < |s'.discs| && 0 <= f < |s'.discs|
      ensures OneOpen(s', e, f)
    {
      assert OneOpen(s, e, f);
    }
    forall e | 0 <= e < |s'.discs|
      ensures DiscOk(s', e)
    {
      assert DiscOk(s, e);
    }
    forall e | e in s'.pings
      ensures PingOk(s', e)
    {
      assert PingOk(s, e);
    }
  }

  /** A discovery is added: the first of its line, or the successor of one that is open no more. */
  lemma NewDiscKeepsLines(s: MState, s': MState, disc: Disc)
    requires LinesOk(s) && s'.discs == s.discs + [disc] && s'.sent == s.sent && s'.now == s.now
    requires s.roots <= s'.roots && s.advertised <= s'.advertised
    requires disc.created == s.now && disc.root < s'.roots && disc.subtree in s'.advertised
    requires |s.discs| !in s'.pings
    requires forall d :: 0 <= d < |s.discs| ==> (Unsent(s', d) ==> Unsent(s, d)) && (Open(s', d) ==> Open(s, d))
    requires forall d :: 0 <= d < |s.discs| && s.discs[d].root == disc.root ==> !Open(s', d)
    requires forall d :: d in s'.pings ==> PingOk(s', d)
    ensures LinesOk(s')
  {
    var n := |s.discs|;
    forall d, e | 0 <= d < |s'.discs| && 0 <= e < |s'.discs|
      ensures OneOpen(s', d, e)
    {
      if d < n && e < n { assert OneOpen(s, d, e); }
    }
    forall i, d | 0 <= i < |s'.sent| && 0 <= d < |s'.discs|
      ensures Before(s', s'.sent[i], d)
    {
      assert SendingOk(s, s.sent[i]);
      if d < n { assert Before(s, s.sent[i], d); }
    }
    forall i | 0 <= i < |s'.sent|
      ensures SendingOk(s', s'.sent[i])
    {
      assert SendingOk(s, s.sent[i]);
    }
    forall d | 0 <= d < |s'.discs|
      ensures DiscOk(s', d)
    {
      if d < n { assert DiscOk(s, d); }
    }
  }

  lemma AttachKeepsLines(s: MState, t: Tid, s': MState)
    requires MInv(s) && MStep(s, Attach(t)) == Some(s')
    ensures LinesOk(s')
  {
    assert VisitOk(s, t);
    forall d | 0 <= d < |s.discs|
      ensures s.discs[d].root != s.roots
    {
      assert DiscOk(s, d);
    }
    forall d | d in s'.pings
      ensures PingOk(s', d) && d < |s.discs|
    {
      assert PingOk(s, d);
    }
    NewDiscKeepsLines(s, s', Disc(s.now, s.roots, s.Visit(t).sub));
  }

  lemma ReloadKeepsLines(s: MState, d: nat, s': MState)
    requires MInv(s) && MStep(s, Reload(d)) == Some(s')
    ensures LinesOk(s')
  {
    assert PingOk(s, d) && DiscOk(s, d) && Open(s, d);
    forall e | 0 <= e < |s.discs| && s.discs[e].root == s.discs[d].root
      ensures !Open(s', e)
    {
      assert OneOpen(s, d, e);
    }
    forall e | e in s'.pings
      ensures PingOk(s', e) && e < |s.discs|
    {
      assert PingOk(s, e);
    }
    NewDiscKeepsLines(s, s', Disc(s.now, s.discs[d].root, s.pings[d].sub));
  }

  lemma MStepKeepsInv(s: MState, e: MEvent, s': MState)
    requires MInv(s) && MStep(s, e) == Some(s')
    ensures MInv(s')
  {
    MStepKeepsVisits(s, e, s');
    match e
    case Attach(t) => AttachKeepsLines(s, t, s');
    case SendPing(d) => SendKeepsLines(s, d, s');
    case Reload(d) => ReloadKeepsLines(s, d, s');
    case _ => QuietStepKeepsLines(s, e, s');
  }

  lemma {:induction false} MRunKeepsInv(r: seq<MState>, i: nat)
    requires IsMRun(r) && i < |r|
    ensures MInv(r[i])
  {
    if i > 0 {
      MRunKeepsInv(r, i - 1);
      assert MNextAt(r, i - 1);
      var e :| MStep(r[i - 1], e) == Some(r[i]);
      MStepKeepsInv(r[i - 1], e, r[i]);
    }
  }

  // --- the rate of pings ---

  /** How many pings reached the origin from time `a` to time `a + span`, for the attachments below `m`. */
  function PingsBelow(sent: seq<Sending>, a: Time, span: Time, m: nat): nat {
    if sent == [] then 0
    else
      var p := sent[|sent| - 1];
      PingsBelow(sent[..|sent| - 1], a, span, m) + if a <= p.at <= a + span && p.root < m then 1 else 0
  }

  /** All of them. */
  function PingsIn(sent: seq<Sending>, a: Time, span: Time): nat {
    if sent == [] then 0
    else
      var p := sent[|sent| - 1];
      PingsIn(sent[..|sent| - 1], a, span) + if a <= p.at <= a + span then 1 else 0
  }

  function PingsOf(sent: seq<Sending>, a: Time, span: Time, root: nat): nat {
    if sent == [] then 0
    else
      var p := sent[|sent| - 1];
      PingsOf(sent[..|sent| - 1], a, span, root) + if a <= p.at <= a + span && p.root == root then 1 else 0
  }

  ghost predicate AllApart(sent: seq<Sending>) {
    forall i, j :: 0 <= i < j < |sent| ==> Apart(sent[i], sent[j])
  }

  /** The `k`-th ping of a line within the window comes at least `k - 1` validity periods after its begin. */
  lemma {:induction false} LastOfLine(sent: seq<Sending>, a: Time, span: Time, root: nat)
    requires AllApart(sent) && PingsOf(sent, a, span, root) > 0
    ensures exists p :: p in sent && p.root == root && p.at <= a + span
              && a + (PingsOf(sent, a, span, root) - 1) * VALIDITY <= p.at
  {
    var rest, p := sent[..|sent| - 1], sent[|sent| - 1];
    if PingsOf(rest, a, span, root) > 0 {
      LastOfLine(rest, a, span, root);
      var q :| q in rest && q.root == root && q.at <= a + span
               && a + (PingsOf(rest, a, span, root) - 1) * VALIDITY <= q.at;
      assert Apart(q, p);
      assert q in sent && p in sent;
    } else {
      assert p in sent;
    }
  }

  lemma LineBound(sent: seq<Sending>, a: Time, span: Time, root: nat)
    requires AllApart(sent)
    ensures PingsOf(sent, a, span, root) <= span / VALIDITY + 1
  {
    if PingsOf(sent, a, span, root) > 0 {
      LastOfLine(sent, a, span, root);
    }
  }

  lemma {:induction false} OneMoreLine(sent: seq<Sending>, a: Time, span: Time, m: nat)
    ensures PingsBelow(sent, a, span, m + 1) == PingsBelow(sent, a, span, m) + PingsOf(sent, a, span, m)
  {
    if sent != [] {
      OneMoreLine(sent[..|sent| - 1], a, span, m);
    }
  }

  lemma {:induction false} NoLine(sent: seq<Sending>, a: Time, span: Time)
    ensures PingsBelow(sent, a, span, 0) == 0
  {
    if sent != [] {
      NoLine(sent[..|sent| - 1], a, span);
    }
  }

  lemma {:induction false} LinesBound(sent: seq<Sending>, a: Time, span: Time, m: nat)
    requires AllApart(sent)
    ensures PingsBelow(sent, a, span, m) <= m * (span / VALIDITY + 1)
  {
    if m == 0 {
      NoLine(sent, a, span);
    } else {
      LinesBound(sent, a, span, m - 1);
      LineBound(sent, a, span, m - 1);
      OneMoreLine(sent, a, span, m - 1);
      assert m * (span / VALIDITY + 1) == (m - 1) * (span / VALIDITY + 1) + (span / VALIDITY + 1);
    }
  }

  lemma {:induction false} AllLines(sent: seq<Sending>, a: Time, span: Time, m: nat)
    requires forall p :: p in sent ==> p.root < m
    ensures PingsIn(sent, a, span) == PingsBelow(sent, a, span, m)
  {
    if sent != [] {
      AllLines(sent[..|sent| - 1], a, span, m);
    }
  }

  /** However many requests come, in any window of `span` milliseconds the origin gets at most
      `span / 5000 + 1` pings per initial attachment. */
  lemma PingRate(r: seq<MState>, i: nat, a: Time, span: Time)
    requires IsMRun(r) && i < |r|
    ensures PingsIn(r[i].sent, a, span) <= r[i].roots * (span / VALIDITY + 1)
  {
    MRunKeepsInv(r, i);
    var s := r[i];
    forall p | p in s.sent
      ensures p.root < s.roots
    {
      assert SendingOk(s, p) && DiscOk(s, p.disc);
    }
    AllLines(s.sent, a, span, s.roots);
    LinesBound(s.sent, a, span, s.roots);
  }

  /** A discovery pings at most once, and only when its five seconds are over. */
  lemma PingedOnceAfterExpiry(r: seq<MState>, i: nat, k: nat, l: nat)
    requires IsMRun(r) && i < |r| && k < |r[i].sent| && l < |r[i].sent|
    ensures r[i].sent[k].disc < |r[i].discs|
    ensures r[i].sent[k].at >= r[i].discs[r[i].sent[k].disc].created + VALIDITY
    ensures r[i].sent[k].disc == r[i].sent[l].disc ==> k == l
  {
    MRunKeepsInv(r, i);
    assert SendingOk(r[i], r[i].sent[k]);
    if k < l {
      assert Apart(r[i].sent[k], r[i].sent[l]);
    } else if l < k {
      assert Apart(r[i].sent[l], r[i].sent[k]);
    }
  }

  /** Requests are only ever served from subtrees that the origin advertised, below their prefix; and
      none is served from a stale discovery whose renewal has not been started, once the timer fired. */
  lemma ServedWasAdvertised(r: seq<MState>, i: nat, k: nat)
    requires IsMRun(r) && i < |r| && k < |r[i].served|
    ensures var x := r[i].served[k];
            && x.disc < |r[i].discs| && r[i].discs[x.disc].subtree in r[i].advertised
            && r[i].discs[x.disc].subtree.prefix <= x.path
            && (x.at >= r[i].discs[x.disc].created + VALIDITY && !x.late ==> x.disc in r[i].pings)
  {
    MRunKeepsInv(r, i);
    assert ServedOk(r[i], r[i].served[k]) && DiscOk(r[i], r[i].served[k].disc);
  }

  // --- what becomes of an advertisement, and of a failure ---

  /** Whoever has something to do for what is attached: a request, or the ping of a discovery. */
  datatype Actor = OfVisit(t: Tid) | OfPing(d: nat)

  datatype Work = ToMake(sub: Subtree) | ToStore(disc: nat) | ToDetach | NoWork

  function WorkOf(s: MState, who: Actor): Work {
    match who
    case OfVisit(t) => WorkOfVisit(s.Visit(t))
    case OfPing(d) => if d in s.pings then WorkOfPing(s.pings[d]) else NoWork
  }

  function WorkOfVisit(v: Visit): Work {
    match v
    case WillAttach(sub) => ToMake(sub)
    case Storing(d) => ToStore(d)
    case WillDetach => ToDetach
    case _ => NoWork
  }

  function WorkOfPing(p: Ping): Work {
    match p
    case WillReload(sub) => ToMake(sub)
    case Replacing(d) => ToStore(d)
    case Failed => ToDetach
    case _ => NoWork
  }

  /** The step of `who` itself that does its work. */
  function OwnEvent(s: MState, who: Actor): MEvent {
    match who
    case OfVisit(t) => if WorkOf(s, who).ToMake? then Attach(t) else Store(t)
    case OfPing(d) => if WorkOf(s, who).ToMake? then Reload(d) else FinishPing(d)
  }

  /** Work is never blocked: whatever else is under way, its next step can be taken. */
  lemma WorkNeverBlocks(r: seq<MState>, i: nat, who: Actor)
    requires IsMRun(r) && i < |r| && !WorkOf(r[i], who).NoWork?
    ensures MStep(r[i], OwnEvent(r[i], who)).Some?
  {
    MRunKeepsInv(r, i);
    if who.OfPing? {
      assert PingOk(r[i], who.d);
    }
  }

  predicate IsRenewal(s: MState, e: nat, sub: Subtree, since: Time) {
    e < |s.discs| && s.discs[e].subtree == sub && s.discs[e].created >= since
  }

  /** A discovery of `sub` that is not older than `since` is in use. */
  predicate InUse(s: MState, sub: Subtree, since: Time) {
    s.slot.Attached? && IsRenewal(s, s.slot.disc, sub, since)
  }

  /** `who` is bringing `sub` into use, and has at most `left` steps to go. */
  predicate BringsIn(s: MState, who: Actor, sub: Subtree, since: Time, left: nat) {
    && since <= s.now
    && match WorkOf(s, who)
       case ToMake(x) => x == sub && left >= 2
       case ToStore(e) => IsRenewal(s, e, sub, since) && left >= 1
       case _ => false
  }

  lemma OwnStepBringsIn(s: MState, s': MState, who: Actor, sub: Subtree, since: Time, left: nat)
    requires BringsIn(s, who, sub, since, left) && MStep(s, OwnEvent(s, who)) == Some(s')
    ensures InUse(s', sub, since) || (left >= 2 && BringsIn(s', who, sub, since, left - 1))
  {
  }

  lemma OtherStepKeepsWork(s: MState, e: MEvent, s': MState, who: Actor)
    requires !WorkOf(s, who).NoWork? && MStep(s, e) == Some(s') && e != OwnEvent(s, who)
    ensures WorkOf(s', who) == WorkOf(s, who)
  {
    if who.OfVisit? { OtherStepKeepsVisit(s, e, s', who.t); } else { OtherStepKeepsPing(s, e, s', who.d); }
  }

  lemma OtherStepKeepsVisit(s: MState, e: MEvent, s': MState, t: Tid)
    requires !WorkOfVisit(s.Visit(t)).NoWork? && MStep(s, e) == Some(s') && e != OwnEvent(s, OfVisit(t))
    ensures s'.Visit(t) == s.Visit(t)
  {
  }

  lemma OtherStepKeepsPing(s: MState, e: MEvent, s': MState, d: nat)
    requires d in s.pings && !WorkOfPing(s.pings[d]).NoWork? && MStep(s, e) == Some(s') && e != OwnEvent(s, OfPing(d))
    ensures d in s'.pings && s'.pings[d] == s.pings[d]
  {
  }

  /** The step from `r[k]` is the one that does the work of `who`. */
  predicate Acts(r: seq<MState>, k: nat, who: Actor)
    requires k < |r| - 1
  {
    !WorkOf(r[k], who).NoWork? && MStep(r[k], OwnEvent(r[k], who)) == Some(r[k + 1])
  }

  /** Until it is in use, the work on it goes on, with as many steps left as there were. */
  lemma {:induction false} WorkGoesOn(r: seq<MState>, i: nat, j: nat, who: Actor, sub: Subtree, since: Time, left: nat)
    requires IsMRun(r) && i <= j < |r| && BringsIn(r[i], who, sub, since, left)
    ensures BringsIn(r[j], who, sub, since, left) || exists k :: i < k <= j && InUse(r[k], sub, since)
    decreases j
  {
    if i < j {
      WorkGoesOn(r, i, j - 1, who, sub, since, left);
      if BringsIn(r[j - 1], who, sub, since, left) {
        assert MNextAt(r, j - 1);
        var e :| MStep(r[j - 1], e) == Some(r[j]);
        if e == OwnEvent(r[j - 1], who) {
          OwnStepBringsIn(r[j - 1], r[j], who, sub, since, left);
        } else {
          OtherStepKeepsWork(r[j - 1], e, r[j], who);
          StepGrows(r[j - 1], e, r[j]);
        }
      }
    }
  }

  /** An advertisement that a request met before anything was attached, or that answered a ping, is in
      use once its goroutine has taken two more steps, which nothing can keep it from taking. The
      discovery in use then is no older than the advertisement. */
  lemma AdvertisedComesIntoUse(r: seq<MState>, i: nat, a: nat, b: nat, who: Actor, sub: Subtree)
    requires IsMRun(r) && i <= a < b < |r| - 1 && WorkOf(r[i], who) == ToMake(sub)
    requires Acts(r, a, who) && Acts(r, b, who)
    ensures exists k :: i < k <= b + 1 && InUse(r[k], sub, r[i].now)
  {
    var since := r[i].now;
    WorkGoesOn(r, i, a, who, sub, since, 2);
    if BringsIn(r[a], who, sub, since, 2) {
      OwnStepBringsIn(r[a], r[a + 1], who, sub, since, 2);
      if BringsIn(r[a + 1], who, sub, since, 1) {
        WorkGoesOn(r, a + 1, b, who, sub, since, 1);
        if BringsIn(r[b], who, sub, since, 1) {
          OwnStepBringsIn(r[b], r[b + 1], who, sub, since, 1);
        }
      }
    }
  }

  lemma {:induction false} DetachmentGoesOn(r: seq<MState>, i: nat, j: nat, who: Actor)
    requires IsMRun(r) && i <= j < |r| && WorkOf(r[i], who).ToDetach?
    ensures WorkOf(r[j], who).ToDetach? || exists k :: i < k <= j && r[k].slot.Detached?
    decreases j
  {
    if i < j {
      DetachmentGoesOn(r, i, j - 1, who);
      if WorkOf(r[j - 1], who).ToDetach? {
        assert MNextAt(r, j - 1);
        var e :| MStep(r[j - 1], e) == Some(r[j]);
        if e != OwnEvent(r[j - 1], who) {
          OtherStepKeepsWork(r[j - 1], e, r[j], who);
        }
      }
    }
  }

  /** A failed ping, or a conflicting advertisement, switches turbocharging off with the next step of
      its goroutine. */
  lemma FailureDetaches(r: seq<MState>, i: nat, a: nat, who: Actor)
    requires IsMRun(r) && i <= a < |r| - 1 && WorkOf(r[i], who).ToDetach? && Acts(r, a, who)
    ensures exists k :: i < k <= a + 1 && r[k].slot.Detached?
  {
    DetachmentGoesOn(r, i, a, who);
    if WorkOf(r[a], who).ToDetach? {
      assert r[a + 1].slot.Detached?;
    }
  }

  // --- how many initial attachments there can be ---

  /** The threads that are between seeing that nothing was ever stored and attaching. */
  function Racers(s: MState): set<Tid> {
    set t | t in s.visits && s.visits[t].WillAttach?
  }

  lemma StepKeepsRacers(s: MState, e: MEvent, s': MState)
    requires MStep(s, e) == Some(s') && !s.slot.Never?
    ensures !s'.slot.Never? && s'.roots + |Racers(s')| <= s.roots + |Racers(s)|
  {
    if e.Attach? {
      assert Racers(s) == Racers(s') + {e.t};
    } else {
      RacersShrink(s, e, s');
    }
  }

  lemma RacersShrink(s: MState, e: MEvent, s': MState)
    requires MStep(s, e) == Some(s') && !s.slot.Never? && !e.Attach?
    ensures s'.roots == s.roots && |Racers(s')| <= |Racers(s)|
  {
    assert Racers(s') <= Racers(s);
    SubsetIsSmaller(Racers(s'), Racers(s));
  }

  lemma SubsetIsSmaller<T>(a: set<T>, b: set<T>)
    requires a <= b
    ensures |a| <= |b|
  {
    assert b == a + (b - a);
  }

  /** Once anything is stored, only requests that were already racing to attach can still do so: the
      number of ping chains is settled at that moment. */
  lemma {:induction false} OnlyRacersAttach(r: seq<MState>, i: nat, j: nat)
    requires IsMRun(r) && i <= j < |r| && !r[i].slot.Never?
    ensures !r[j].slot.Never? && r[j].roots + |Racers(r[j])| <= r[i].roots + |Racers(r[i])|
    decreases j - i
  {
    if i < j {
      OnlyRacersAttach(r, i, j - 1);
      assert MNextAt(r, j - 1);
      var e :| MStep(r[j - 1], e) == Some(r[j]);
      StepKeepsRacers(r[j - 1], e, r[j]);
    }
  }
}
