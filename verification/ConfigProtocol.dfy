/**
 The configuration service as a machine: any number of operations, each somewhere between two of
 its awaits, one lock, three files and one audit log. Every audit append and every file access may
 fail, and a failure may strike before or after the effect. An operation may be cancelled at any await;
 a write it was waiting for goes on without it and lands later, outside the lock.
 */
module ConfigProtocol {
  import opened Wrappers
  import opened ConfigResources

  datatype Domain = AiDomain | FeishuDomain | ResourcesDomain

  datatype Content =
    | Gemini(enabled: bool, apiKey: Option<string>)
    | Feishu(enabled: bool, appId: Option<string>, appSecret: Option<string>)
    | Listed(resources: seq<Resource>)

  datatype File = Missing | Corrupt | Stored(generation: nat, content: Content)

  /** One file for each domain. */
  datatype Files = Files(ai: File, feishu: File, resources: File) {
    function At(d: Domain): File {
      match d
      case AiDomain => ai
      case FeishuDomain => feishu
      case ResourcesDomain => resources
    }

    function Put(d: Domain, f: File): (n: Files)
      ensures forall e: Domain :: n.At(e) == if e == d then f else At(e)
    {
      match d
      case AiDomain => this.(ai := f)
      case FeishuDomain => this.(feishu := f)
      case ResourcesDomain => this.(resources := f)
    }
  }

  function Generation(f: File): nat { if f.Stored? then f.generation else 0 }

  /** A readable file holds the content of its domain, within its contract. */
  predicate Typed(x: Syntax, d: Domain, f: File) {
    f.Stored? ==>
      match d
      case AiDomain => f.content.Gemini? && OptionalOk(x.secret, f.content.apiKey)
      case FeishuDomain => f.content.Feishu? && OptionalOk(x.secret, f.content.appSecret)
      case ResourcesDomain => f.content.Listed? && ValidDocument(x, f.content.resources)
  }

  // ---- requests ----

  datatype Request =
    | SaveAi(enabled: Option<bool>, apiKey: Option<string>)
    | ClearAi
    | SaveFeishu(enabled: Option<bool>, appId: Option<string>, appSecret: Option<string>)
    | ClearFeishu
    | EditResources(change: Change)

  function DomainOf(q: Request): Domain {
    if q.SaveAi? || q.ClearAi? then AiDomain
    else if q.SaveFeishu? || q.ClearFeishu? then FeishuDomain
    else ResourcesDomain
  }

  /** The request itself carries a secret that the contract rejects. */
  predicate BadSecret(x: Syntax, q: Request) {
    || (q.SaveAi? && !OptionalOk(x.secret, q.apiKey))
    || (q.SaveFeishu? && !OptionalOk(x.secret, q.appSecret))
  }

  /** Why no new content comes about: a refusal the service reports, or a contract error that
      escapes from it. */
  datatype Trouble = Refuses(why: Refusal) | ContractError

  function ResourcesOf(f: File): seq<Resource> { if f.Stored? && f.content.Listed? then f.content.resources else [] }

  function NewContent(x: Syntax, f: File, q: Request): Result<Content, Trouble>
    requires Typed(x, DomainOf(q), f)
  {
    match q
    case SaveAi(enabled, key) =>
      var c := if f.Stored? then f.content else Gemini(false, None);
      if OptionalOk(x.secret, OrElse(key, c.apiKey)) then Ok(Gemini(Or(enabled, c.enabled), OrElse(key, c.apiKey)))
      else Err(ContractError)
    case ClearAi => Ok(Gemini(false, None))
    case SaveFeishu(enabled, appId, secret) =>
      var c := if f.Stored? then f.content else Feishu(false, None, None);
      if OptionalOk(x.secret, OrElse(secret, c.appSecret)) then
        Ok(Feishu(Or(enabled, c.enabled), OrElse(appId, c.appId), OrElse(secret, c.appSecret)))
      else Err(ContractError)
    case ClearFeishu => Ok(Feishu(false, None, None))
    case EditResources(change) =>
      match NewDocument(x, ResourcesOf(f), change)
      case Ok(rs) => Ok(Listed(rs))
      case Err(why) => Err(Refuses(why))
  }

  // ---- operations ----

  datatype Reason = ConfigInvalid | FileIoFailed | TargetNotFound | ConflictReason
  datatype Verdict = Succeeded | Failed(reason: Reason)
  datatype Answer = Saved(generation: nat) | Forbidden | Unavailable | Refused(why: Refusal) | Raised | Cancelled

  /** What is on record: audit events and file writes. */
  datatype Entry =
    | Denied(op: nat)
    | Started(op: nat)
    | Wrote(op: nat, domain: Domain, before: File, after: File)
    | Terminal(op: nat, verdict: Verdict)

  datatype Phase =
    | Arrived
    | Queued
    | Starting
    | Reading
    | Writing(before: File, after: File)
    | Closing(verdict: Verdict, answer: Answer)
    | Answered(answer: Answer)

  /** How an audit append or a file access went: done, done although it raised, or not done. */
  datatype Effect = Done | DoneButRaised | NotDone

  datatype Op = Op(request: Request, allowed: bool, phase: Phase)

  predicate Locked(p: Phase) { p.Starting? || p.Reading? || p.Writing? || p.Closing? }

  /** What one step of an operation can see and change. */
  datatype Desk = Desk(phase: Phase, files: Files, history: seq<Entry>)

  function Record(d: Desk, e: Entry, effect: Effect): seq<Entry> {
    if effect == NotDone then d.history else d.history + [e]
  }

  function ReasonOf(why: Refusal): Reason {
    match why
    case NotFound => TargetNotFound
    case Conflict => ConflictReason
    case Rejected => ConfigInvalid
  }

  /** Behind the read: the new document, or the way out. */
  function Built(x: Syntax, q: Request, f: File): Phase
    requires Typed(x, DomainOf(q), f)
  {
    match NewContent(x, f, q)
    case Ok(c) => Writing(f, Stored(Generation(f) + 1, c))
    case Err(Refuses(why)) => Closing(Failed(ReasonOf(why)), Refused(why))
    case Err(ContractError) => Answered(Raised)
  }

  /** One step of operation `id`. */
  function Advance(x: Syntax, id: nat, q: Request, allowed: bool, d: Desk, effect: Effect): Desk
    requires Typed(x, DomainOf(q), d.files.At(DomainOf(q)))
  {
    match d.phase
    case Arrived =>
      if allowed then d.(phase := Queued)
      else d.(phase := Answered(if effect == Done then Forbidden else Unavailable),
              history := Record(d, Denied(id), effect))
    case Queued => d.(phase := Starting)
    case Starting =>
      d.(phase := if effect == Done then Reading else Answered(Unavailable), history := Record(d, Started(id), effect))
    case Reading =>
      var f := d.files.At(DomainOf(q));
      if effect != Done || f.Corrupt? then d.(phase := Closing(Failed(ConfigInvalid), Unavailable))
      else d.(phase := Built(x, q, f))
    case Writing(before, after) =>
      d.(phase := if effect == Done then Closing(Succeeded, Saved(Generation(after)))
                  else Closing(Failed(FileIoFailed), Unavailable),
         files := if effect == NotDone then d.files else d.files.Put(DomainOf(q), after),
         history := Record(d, Wrote(id, DomainOf(q), before, after), effect))
    case Closing(verdict, answer) =>
      d.(phase := Answered(if effect == Done then answer else Unavailable),
         history := Record(d, Terminal(id, verdict), effect))
    case Answered(_) => d
  }

  /** Operation `id` is cancelled at the await where it stands; what it awaited may still have its
      effect. A cancelled write is another matter: its thread goes on outside the lock. */
  function Abandon(id: nat, allowed: bool, d: Desk, effect: Effect): Desk
    requires !d.phase.Writing? && !d.phase.Answered?
  {
    d.(phase := Answered(Cancelled),
       history := match d.phase
                  case Arrived => if allowed then d.history else Record(d, Denied(id), effect)
                  case Starting => Record(d, Started(id), effect)
                  case Closing(verdict, _) => Record(d, Terminal(id, verdict), effect)
                  case _ => d.history)
  }

  // ---- the system ----

  /** `flying` are the writes that go on without their cancelled operations; `seen` notes how long the
      history was when an operation read its file. */
  datatype System = System(files: Files, history: seq<Entry>, ops: seq<Op>, holder: Option<nat>,
                           flying: seq<Entry>, seen: map<nat, nat>)

  datatype Action =
    | Arrive(request: Request, allowed: bool)
    | Move(op: nat, effect: Effect)
    | Cancel(op: nat, effect: Effect)
    | CutWrite(op: nat)
    | Land(index: nat, effect: Effect)

  predicate Enabled(s: System, a: Action) {
    match a
    case Arrive(_, _) => true
    case Move(i, _) => i < |s.ops| && !s.ops[i].phase.Answered? && (s.ops[i].phase.Queued? ==> s.holder == None)
    case Cancel(i, _) => i < |s.ops| && !s.ops[i].phase.Answered? && !s.ops[i].phase.Writing?
    case CutWrite(i) => i < |s.ops| && s.ops[i].phase.Writing?
    case Land(k, _) => k < |s.flying| && s.flying[k].Wrote?
  }

  predicate AllTyped(x: Syntax, files: Files) { forall d: Domain :: Typed(x, d, files.At(d)) }

  function Moved(x: Syntax, s: System, i: nat, effect: Effect): Desk
    requires AllTyped(x, s.files) && i < |s.ops|
  {
    Advance(x, i, s.ops[i].request, s.ops[i].allowed, Desk(s.ops[i].phase, s.files, s.history), effect)
  }

  function Apply(x: Syntax, s: System, a: Action): System
    requires AllTyped(x, s.files) && Enabled(s, a)
  {
    match a
    case Arrive(q, allowed) => s.(ops := s.ops + [Op(q, allowed, Arrived)])
    case Move(i, effect) => Settled(Noted(s, i), i, Moved(x, s, i, effect))
    case Cancel(i, effect) =>
      Settled(s, i, Abandon(i, s.ops[i].allowed, Desk(s.ops[i].phase, s.files, s.history), effect))
    case CutWrite(i) =>
      Settled(s.(flying := s.flying + [PendingWrite(s, i)]), i, Desk(Answered(Cancelled), s.files, s.history))
    case Land(k, effect) => LandAt(s, k, effect)
  }

  function Noted(s: System, i: nat): System
    requires i < |s.ops|
  {
    if s.ops[i].phase.Reading? then s.(seen := s.seen[i := |s.history|]) else s
  }

  /** The write that operation `i` is about to make. */
  function PendingWrite(s: System, i: nat): Entry
    requires i < |s.ops| && s.ops[i].phase.Writing?
  {
    Wrote(i, DomainOf(s.ops[i].request), s.ops[i].phase.before, s.ops[i].phase.after)
  }

  function LandAt(s: System, k: nat, effect: Effect): System
    requires k < |s.flying| && s.flying[k].Wrote?
  {
    Landed(s, s.flying[k], effect).(flying := s.flying[..k] + s.flying[k + 1..])
  }

  function Landed(s: System, e: Entry, effect: Effect): System
    requires e.Wrote?
  {
    if effect == NotDone then s
    else s.(files := s.files.Put(e.domain, e.after), history := s.history + [e])
  }

  /** The system behind a step of operation `i`, which leaves the lock as it leaves the locked part. */
  function Settled(s: System, i: nat, d: Desk): System
    requires i < |s.ops|
  {
    s.(files := d.files, history := d.history, ops := s.ops[i := s.ops[i].(phase := d.phase)],
       holder := if Locked(d.phase) then Some(i) else if s.holder == Some(i) then None else s.holder)
  }

  function Idle(files: Files): System { System(files, [], [], None, [], map[]) }

  // ---- what holds in every state ----

  /** The entries of one operation, in order. */
  function Story(h: seq<Entry>, i: nat): seq<Entry> {
    if h == [] then []
    else Story(h[..|h| - 1], i) + (if h[|h| - 1].op == i then [h[|h| - 1]] else [])
  }

  /** The entries an operation can have behind it, by where it stands. */
  predicate StoryFits(x: Syntax, i: nat, o: Op, s: seq<Entry>) {
    match o.phase
    case Arrived => s == []
    case Queued => s == [] && o.allowed
    case Starting => s == [] && o.allowed
    case Reading => s == [Started(i)] && o.allowed
    case Writing(before, after) => s == [Started(i)] && o.allowed && RightWrite(x, o.request, before, after)
    case Closing(verdict, answer) => o.allowed && Opening(x, i, o.request, s) && ClosingFits(i, verdict, answer, s)
    case Answered(answer) => AnswerFits(x, i, o, answer, s)
  }

  /** `after` is what the request makes of `before`, one generation on. */
  predicate RightWrite(x: Syntax, q: Request, before: File, after: File) {
    && !before.Corrupt? && Typed(x, DomainOf(q), before) && after.Stored?
    && NewContent(x, before, q) == Ok(after.content) && after.generation == Generation(before) + 1
  }

  /** A start, and at most one write behind it. */
  predicate Opening(x: Syntax, i: nat, q: Request, s: seq<Entry>) {
    && 1 <= |s| <= 2 && s[0] == Started(i)
    && (|s| == 2 ==>
          s[1].Wrote? && s[1].op == i && s[1].domain == DomainOf(q) && RightWrite(x, q, s[1].before, s[1].after))
  }

  predicate ClosingFits(i: nat, verdict: Verdict, answer: Answer, s: seq<Entry>) {
    match answer
    case Saved(g) => verdict == Succeeded && |s| == 2 && s[1].Wrote? && Generation(s[1].after) == g
    case Refused(why) => verdict == Failed(ReasonOf(why)) && |s| == 1
    case Unavailable => verdict == Failed(FileIoFailed) || (verdict == Failed(ConfigInvalid) && |s| == 1)
    case _ => false
  }

  predicate AnswerFits(x: Syntax, i: nat, o: Op, answer: Answer, s: seq<Entry>) {
    match answer
    case Forbidden => !o.allowed && s == [Denied(i)]
    case Raised => o.allowed && s == [Started(i)] && BadSecret(x, o.request)
    case Unavailable => Partial(x, i, o, s)
    case Cancelled => Partial(x, i, o, s)
    case _ =>
      && o.allowed && s != [] && Opening(x, i, o.request, s[..|s| - 1])
      && s[|s| - 1].Terminal? && s[|s| - 1].op == i && ClosingFits(i, s[|s| - 1].verdict, answer, s[..|s| - 1])
  }

  /** What may be on record of an operation that is told no result: nothing, the denial, the start
      with or without the write, or these and an outcome. */
  predicate Partial(x: Syntax, i: nat, o: Op, s: seq<Entry>) {
    || s == []
    || (!o.allowed && s == [Denied(i)])
    || (o.allowed && Opening(x, i, o.request, s))
    || (o.allowed && Opening(x, i, o.request, s[..|s| - 1]) && s[|s| - 1].Terminal? && s[|s| - 1].op == i
        && OutcomeFits(s[|s| - 1].verdict, s[..|s| - 1]))
  }

  /** Without a write the outcome is a failure, behind one a success or a failed file access. */
  predicate OutcomeFits(verdict: Verdict, opening: seq<Entry>) {
    if |opening| == 1 then verdict.Failed? else verdict == Succeeded || verdict == Failed(FileIoFailed)
  }

  /** The files after the writes of a history. */
  function Replay(first: Files, h: seq<Entry>): Files {
    if h == [] then first
    else
      var e, files := h[|h| - 1], Replay(first, h[..|h| - 1]);
      if e.Wrote? then files.Put(e.domain, e.after) else files
  }

  /** The operations inside the locked part are the one that holds the lock. */
  predicate LockHeld(s: System) {
    && (s.holder.Some? ==> s.holder.value < |s.ops|)
    && forall i :: 0 <= i < |s.ops| ==> (Locked(s.ops[i].phase) <==> s.holder == Some(i))
  }

  predicate StoriesFit(x: Syntax, s: System) {
    && (forall i :: 0 <= i < |s.ops| ==> StoryFits(x, i, s.ops[i], Story(s.history, i)))
    && (forall k :: 0 <= k < |s.history| ==> s.history[k].op < |s.ops|)
  }

  /** A write that flies belongs to a cancelled operation of which only the start is on record. */
  predicate Flies(x: Syntax, s: System, e: Entry) {
    && e.Wrote? && e.op < |s.ops| && s.ops[e.op].phase == Answered(Cancelled) && s.ops[e.op].allowed
    && e.domain == DomainOf(s.ops[e.op].request) && RightWrite(x, s.ops[e.op].request, e.before, e.after)
    && Story(s.history, e.op) == [Started(e.op)]
  }

  predicate FlyingFit(x: Syntax, s: System) {
    && (forall k :: 0 <= k < |s.flying| ==> Flies(x, s, s.flying[k]))
    && forall k, m :: 0 <= k < m < |s.flying| ==> s.flying[k].op != s.flying[m].op
  }

  predicate Sound(x: Syntax, s: System) { AllTyped(x, s.files) && LockHeld(s) && StoriesFit(x, s) && FlyingFit(x, s) }

  /** Operation `i` read the file `before` of the domain, which the writes up to then had left there. */
  predicate ReadFrom(first: Files, h: seq<Entry>, seen: map<nat, nat>, i: nat, d: Domain, before: File) {
    i in seen && seen[i] <= |h| && before == Replay(first, h[..seen[i]]).At(d)
  }

  /** Every write on record comes behind the read it is built on. */
  predicate WritesRead(first: Files, h: seq<Entry>, seen: map<nat, nat>) {
    forall k :: 0 <= k < |h| && h[k].Wrote? ==>
                  ReadFrom(first, h, seen, h[k].op, h[k].domain, h[k].before) && seen[h[k].op] <= k
  }

  /** And so does every write to come. */
  predicate PendingRead(first: Files, s: System) {
    && (forall i :: 0 <= i < |s.ops| && s.ops[i].phase.Writing? ==>
                      ReadFrom(first, s.history, s.seen, i, DomainOf(s.ops[i].request), s.ops[i].phase.before))
    && forall k :: 0 <= k < |s.flying| && s.flying[k].Wrote? ==>
                     ReadFrom(first, s.history, s.seen, s.flying[k].op, s.flying[k].domain, s.flying[k].before)
  }

  predicate Inv(x: Syntax, first: Files, s: System) {
    && Sound(x, s) && s.files == Replay(first, s.history)
    && WritesRead(first, s.history, s.seen) && PendingRead(first, s)
  }
}
