/**
 The service object: one save, edit or clearing from its first check to its answer, as the code
 performs it, against the same operation taken step by step through the machine.
 */
module ConfigService {
  import opened ConfigResources
  import opened ConfigProtocol
  import opened ConfigSafety
  import opened ConfigTheorems
  import opened ConfigSaves
  import opened Wrappers

  /** How each effect of one operation goes. */
  datatype Weather = Weather(denied: Effect, started: Effect, read: Effect, write: Effect, terminal: Effect)

  function EffectAt(w: Weather, p: Phase): Effect {
    match p
    case Arrived => w.denied
    case Starting => w.started
    case Reading => w.read
    case Writing(_, _) => w.write
    case Closing(_, _) => w.terminal
    case _ => Done
  }

  function StepsLeft(p: Phase): nat {
    match p
    case Arrived => 6
    case Queued => 5
    case Starting => 4
    case Reading => 3
    case Writing(_, _) => 2
    case Closing(_, _) => 1
    case Answered(_) => 0
  }

  /** The operation runs to its answer without interruption. */
  function Alone(x: Syntax, id: nat, q: Request, allowed: bool, d: Desk, w: Weather): (n: Desk)
    requires Typed(x, DomainOf(q), d.files.At(DomainOf(q)))
    requires d.phase.Writing? ==> d.phase.after.Stored? && Typed(x, DomainOf(q), d.phase.after)
    ensures n.phase.Answered?
    decreases StepsLeft(d.phase)
  {
    if d.phase.Answered? then d
    else
      assert d.phase.Reading? && NewContent(x, d.files.At(DomainOf(q)), q).Ok? ==>
          Typed(x, DomainOf(q), Stored(Generation(d.files.At(DomainOf(q))) + 1,
                                       NewContent(x, d.files.At(DomainOf(q)), q).value));
      Alone(x, id, q, allowed, Advance(x, id, q, allowed, d, EffectAt(w, d.phase)), w)
  }

  /** The last step. */
  lemma ClosesAlone(x: Syntax, id: nat, q: Request, d: Desk, w: Weather)
    requires d.phase.Closing? && Typed(x, DomainOf(q), d.files.At(DomainOf(q)))
    ensures Alone(x, id, q, true, d, w)
         == Desk(Answered(if w.terminal == Done then d.phase.answer else Unavailable), d.files,
                 Record(d, Terminal(id, d.phase.verdict), w.terminal))
  {
  }

  /** An operation whose document cannot be read closes as failed. */
  lemma UnreadAlone(x: Syntax, id: nat, q: Request, d: Desk, w: Weather)
    requires d.phase.Reading? && Typed(x, DomainOf(q), d.files.At(DomainOf(q)))
    requires w.read != Done || d.files.At(DomainOf(q)).Corrupt?
    ensures Alone(x, id, q, true, d, w)
         == Desk(Answered(Unavailable), d.files, Record(d, Terminal(id, Failed(ConfigInvalid)), w.terminal))
  {
    ClosesAlone(x, id, q, d.(phase := Closing(Failed(ConfigInvalid), Unavailable)), w);
  }

  /** What an uninterrupted operation is told, by how each of its effects goes. */
  function AnswerTo(x: Syntax, q: Request, allowed: bool, f: File, w: Weather): Answer
    requires Typed(x, DomainOf(q), f)
  {
    if !allowed then if w.denied == Done then Forbidden else Unavailable
    else if w.started != Done || w.read != Done || f == Corrupt then Unavailable
    else match NewContent(x, f, q)
      case Err(ContractError) => Raised
      case Err(Refuses(why)) => if w.terminal == Done then Refused(why) else Unavailable
      case Ok(_) => if w.write == Done && w.terminal == Done then Saved(Generation(f) + 1) else Unavailable
  }

  /** The entries that an effect leaves behind. */
  function Trace(e: Entry, effect: Effect): seq<Entry> { if effect == NotDone then [] else [e] }

  /** And what it leaves on record. */
  function Recorded(x: Syntax, id: nat, q: Request, allowed: bool, f: File, w: Weather): seq<Entry>
    requires Typed(x, DomainOf(q), f)
  {
    if !allowed then Trace(Denied(id), w.denied)
    else if w.started != Done then Trace(Started(id), w.started)
    else if w.read != Done || f == Corrupt then [Started(id)] + Trace(Terminal(id, Failed(ConfigInvalid)), w.terminal)
    else match NewContent(x, f, q)
      case Err(ContractError) => [Started(id)]
      case Err(Refuses(NotFound)) => [Started(id)] + Trace(Terminal(id, Failed(TargetNotFound)), w.terminal)
      case Err(Refuses(Conflict)) => [Started(id)] + Trace(Terminal(id, Failed(ConflictReason)), w.terminal)
      case Err(Refuses(Rejected)) => [Started(id)] + Trace(Terminal(id, Failed(ConfigInvalid)), w.terminal)
      case Ok(c) =>
        [Started(id)] + Trace(Wrote(id, DomainOf(q), f, Stored(Generation(f) + 1, c)), w.write)
        + Trace(Terminal(id, if w.write == Done then Succeeded else Failed(FileIoFailed)), w.terminal)
  }

  /** An uninterrupted operation gives these answers, leaves these records, and writes the file exactly if its
      write is on record. */
  lemma AnswerIs(x: Syntax, id: nat, q: Request, allowed: bool, d: Desk, w: Weather)
    requires d.phase == Arrived && Typed(x, DomainOf(q), d.files.At(DomainOf(q)))
    ensures var n, f := Alone(x, id, q, allowed, d, w), d.files.At(DomainOf(q));
            && n.phase == Answered(AnswerTo(x, q, allowed, f, w))
            && n.history == d.history + Recorded(x, id, q, allowed, f, w)
            && n.files == if forall e :: e in Recorded(x, id, q, allowed, f, w) ==> !e.Wrote? then d.files
                          else d.files.Put(DomainOf(q), Stored(Generation(f) + 1, NewContent(x, f, q).value))
  {
    var n := Alone(x, id, q, allowed, d, w);
    if allowed {
      var r := Desk(Starting, d.files, d.history);
      assert n == Alone(x, id, q, true, Desk(Queued, d.files, d.history), w);
      assert n == Alone(x, id, q, true, r, w);
      var e := Advance(x, id, q, true, r, w.started);
      assert n == Alone(x, id, q, true, e, w);
      if w.started == Done {
        AnswerBehindStart(x, id, q, d.history, e, w);
      } else {
        assert n == e;
      }
    } else {
      var e := Advance(x, id, q, allowed, d, w.denied);
      assert e.phase.Answered? && Alone(x, id, q, allowed, e, w) == e;
    }
  }

  lemma Joined(h: seq<Entry>, a: seq<Entry>, b: seq<Entry>, c: seq<Entry>)
    ensures h + a + b + c == h + (a + b + c) && h + a + b == h + (a + b)
  {
  }

  /** How operation `id` ends that stands behind its start, with `h` in front of it. */
  ghost predicate EndsAs(x: Syntax, id: nat, q: Request, h: seq<Entry>, files: Files, w: Weather, n: Desk)
    requires Typed(x, DomainOf(q), files.At(DomainOf(q)))
  {
    var f := files.At(DomainOf(q));
    && n.phase == Answered(AnswerTo(x, q, true, f, w))
    && n.history == h + Recorded(x, id, q, true, f, w)
    && n.files == if forall e :: e in Recorded(x, id, q, true, f, w) ==> !e.Wrote? then files
                  else files.Put(DomainOf(q), Stored(Generation(f) + 1, NewContent(x, f, q).value))
  }

  lemma AnswerBehindStart(x: Syntax, id: nat, q: Request, h: seq<Entry>, d: Desk, w: Weather)
    requires d.phase == Reading && Typed(x, DomainOf(q), d.files.At(DomainOf(q))) && w.started == Done
    requires d.history == h + [Started(id)]
    ensures EndsAs(x, id, q, h, d.files, w, Alone(x, id, q, true, d, w))
  {
    var f := d.files.At(DomainOf(q));
    if w.read != Done || f.Corrupt? {
      UnreadAlone(x, id, q, d, w);
      Joined(h, [Started(id)], Trace(Terminal(id, Failed(ConfigInvalid)), w.terminal), []);
    } else if NewContent(x, f, q).Ok? {
      AnswerBehindWrite(x, id, q, h, d, w);
    } else if NewContent(x, f, q).error.Refuses? {
      var why := NewContent(x, f, q).error.why;
      ClosesAlone(x, id, q, d.(phase := Closing(Failed(ReasonOf(why)), Refused(why))), w);
      Joined(h, [Started(id)], Trace(Terminal(id, Failed(ReasonOf(why))), w.terminal), []);
    }
  }

  lemma AnswerBehindWrite(x: Syntax, id: nat, q: Request, h: seq<Entry>, d: Desk, w: Weather)
    requires d.phase == Reading && Typed(x, DomainOf(q), d.files.At(DomainOf(q))) && w.started == Done
    requires d.history == h + [Started(id)] && w.read == Done
    requires !d.files.At(DomainOf(q)).Corrupt? && NewContent(x, d.files.At(DomainOf(q)), q).Ok?
    ensures EndsAs(x, id, q, h, d.files, w, Alone(x, id, q, true, d, w))
  {
    var f := d.files.At(DomainOf(q));
    var built := Writing(f, Stored(Generation(f) + 1, NewContent(x, f, q).value));
    NewContentTyped(x, f, q, Generation(f) + 1);
    var m := Advance(x, id, q, true, d.(phase := built), w.write);
    ClosesAlone(x, id, q, m, w);
    WriteThenClose(x, id, q, h, d, w, built, m);
  }

  lemma WriteThenClose(x: Syntax, id: nat, q: Request, h: seq<Entry>, d: Desk, w: Weather, built: Phase, m: Desk)
    requires d.phase == Reading && Typed(x, DomainOf(q), d.files.At(DomainOf(q))) && w.started == Done
    requires d.history == h + [Started(id)] && w.read == Done
    requires !d.files.At(DomainOf(q)).Corrupt? && NewContent(x, d.files.At(DomainOf(q)), q).Ok?
    requires var f := d.files.At(DomainOf(q));
             built == Writing(f, Stored(Generation(f) + 1, NewContent(x, f, q).value))
    requires m == Advance(x, id, q, true, d.(phase := built), w.write) && m.phase.Closing?
    ensures EndsAs(x, id, q, h, d.files, w,
                   Desk(Answered(if w.terminal == Done then m.phase.answer else Unavailable), m.files,
                        Record(m, Terminal(id, m.phase.verdict), w.terminal)))
  {
    var f := d.files.At(DomainOf(q));
    var wrote, ended := Wrote(id, DomainOf(q), f, built.after), Terminal(id, m.phase.verdict);
    Joined(h, [Started(id)], Trace(wrote, w.write), Trace(ended, w.terminal));
    assert w.write != NotDone ==> wrote in Recorded(x, id, q, true, f, w);
  }

  /** The part of the history behind its first `n` entries tells an outcome of operation `id`. */
  predicate OutcomeBehind(h: seq<Entry>, n: nat, id: nat) {
    exists k :: n <= k < |h| && h[k].Terminal? && h[k].op == id
  }

  /** An uninterrupted operation leaves its outcome on record exactly if it was admitted, its start
      was recorded well, its outcome is recorded at all and no contract error escapes behind a good
      read, which takes a secret that the contract rejects. */
  lemma OutcomeIff(x: Syntax, id: nat, q: Request, allowed: bool, d: Desk, w: Weather)
    requires d.phase == Arrived && Typed(x, DomainOf(q), d.files.At(DomainOf(q)))
    ensures OutcomeBehind(Alone(x, id, q, allowed, d, w).history, |d.history|, id)
            <==> && allowed && w.started == Done && w.terminal != NotDone
                 && !(BadSecret(x, q) && w.read == Done && !d.files.At(DomainOf(q)).Corrupt?)
  {
    var n := Alone(x, id, q, allowed, d, w);
    if allowed {
      var r := Desk(Starting, d.files, d.history);
      assert n == Alone(x, id, q, true, Desk(Queued, d.files, d.history), w);
      assert n == Alone(x, id, q, true, r, w);
      var e := Advance(x, id, q, true, r, w.started);
      assert n == Alone(x, id, q, true, e, w);
      if w.started == Done {
        OutcomeBehindStart(x, id, q, e, w);
      } else {
        assert n == e;
      }
    } else {
      var e := Advance(x, id, q, allowed, d, w.denied);
      assert e.phase.Answered? && Alone(x, id, q, allowed, e, w) == e;
      assert n == e;
    }
  }

  lemma OutcomeBehindStart(x: Syntax, id: nat, q: Request, d: Desk, w: Weather)
    requires d.phase == Reading && Typed(x, DomainOf(q), d.files.At(DomainOf(q)))
    requires d.history != [] && !d.history[|d.history| - 1].Terminal?
    ensures OutcomeBehind(Alone(x, id, q, true, d, w).history, |d.history| - 1, id)
            <==> w.terminal != NotDone && !(BadSecret(x, q) && w.read == Done && !d.files.At(DomainOf(q)).Corrupt?)
  {
    var f := d.files.At(DomainOf(q));
    if w.read != Done || f.Corrupt? {
      UnreadAlone(x, id, q, d, w);
      Closed(d.history, Terminal(id, Failed(ConfigInvalid)), id);
    } else {
      RaisedIff(x, f, q);
      var built := Built(x, q, f);
      if built.Closing? {
        ClosesAlone(x, id, q, d.(phase := built), w);
        Closed(d.history, Terminal(id, built.verdict), id);
      } else if built.Writing? {
        NewContentTyped(x, f, q, Generation(f) + 1);
        OutcomeBehindWrite(x, id, q, d.(phase := built), w);
      }
    }
  }

  lemma OutcomeBehindWrite(x: Syntax, id: nat, q: Request, d: Desk, w: Weather)
    requires d.phase.Writing? && Typed(x, DomainOf(q), d.files.At(DomainOf(q)))
    requires d.phase.after.Stored? && Typed(x, DomainOf(q), d.phase.after)
    requires d.history != [] && !d.history[|d.history| - 1].Terminal?
    ensures OutcomeBehind(Alone(x, id, q, true, d, w).history, |d.history| - 1, id) <==> w.terminal != NotDone
  {
    var n := Advance(x, id, q, true, d, w.write);
    ClosesAlone(x, id, q, n, w);
    Closed(n.history, Terminal(id, n.phase.verdict), id);
  }

  lemma Closed(h: seq<Entry>, t: Entry, id: nat)
    requires t.Terminal? && t.op == id
    ensures forall n :: 0 <= n <= |h| ==> OutcomeBehind(h + [t], n, id)
  {
    assert (h + [t])[|h|] == t;
  }

  /** An empty key is one the contract rejects: everything works well, yet the start stays alone. */
  lemma OutcomeMissing(x: Syntax, id: nat, d: Desk, w: Weather)
    requires !x.secret("") && d == Desk(Arrived, Files(Missing, Missing, Missing), [])
    requires w == Weather(Done, Done, Done, Done, Done)
    ensures Alone(x, id, SaveAi(Some(true), Some("")), true, d, w) == Desk(Answered(Raised), d.files, [Started(id)])
  {
    var q := SaveAi(Some(true), Some(""));
    RaisedIff(x, Missing, q);
    var r := Desk(Reading, d.files, [Started(id)]);
    assert Alone(x, id, q, true, r, w) == Alone(x, id, q, true, r.(phase := Answered(Raised)), w);
    assert Alone(x, id, q, true, Desk(Starting, d.files, []), w) == Alone(x, id, q, true, r, w);
  }

  class Service {
    const syntax: Syntax
    var files: Files
    var history: seq<Entry>

    constructor (syntax: Syntax, files: Files)
      ensures this.syntax == syntax && this.files == files && history == []
    {
      this.syntax, this.files, this.history := syntax, files, [];
    }

    /** One append to the audit log; raises unless it went well. */
    method Append(e: Entry, effect: Effect) returns (ok: bool)
      modifies this`history
      ensures history == Record(Desk(Arrived, files, old(history)), e, effect)
      ensures ok == (effect == Done)
    {
      if effect != NotDone {
        history := history + [e];
      }
      return effect == Done;
    }

    /** `_fail` and `_terminal`: the answer holds only when the outcome is on record. */
    method Close(id: nat, verdict: Verdict, answer: Answer, effect: Effect) returns (told: Answer)
      modifies this`history
      ensures history == Record(Desk(Arrived, files, old(history)), Terminal(id, verdict), effect)
      ensures told == if effect == Done then answer else Unavailable
    {
      var ok := Append(Terminal(id, verdict), effect);
      return if ok then answer else Unavailable;
    }

    /** Everything inside the lock. */
    method Mutate(id: nat, q: Request, w: Weather) returns (answer: Answer)
      requires Typed(syntax, DomainOf(q), files.At(DomainOf(q)))
      modifies this
      ensures Desk(Answered(answer), files, history)
           == Alone(syntax, id, q, true, Desk(Starting, old(files), old(history)), w)
      ensures answer.Saved? ==>
                WritesFields(syntax, q, old(files).At(DomainOf(q)), files.At(DomainOf(q)))
                && answer.generation == files.At(DomainOf(q)).generation
    {
      var ok := Append(Started(id), w.started);
      if !ok {
        return Unavailable;
      }
      var current := files.At(DomainOf(q));
      if w.read != Done || current.Corrupt? {
        UnreadAlone(syntax, id, q, Desk(Reading, files, history), w);
        answer := Close(id, Failed(ConfigInvalid), Unavailable, w.terminal);
      } else {
        answer := Rebuild(id, q, current, w);
      }
    }

    /** Behind a good read: the new document is built and stored, or the request is refused. */
    method Rebuild(id: nat, q: Request, current: File, w: Weather) returns (answer: Answer)
      requires current == files.At(DomainOf(q)) && Typed(syntax, DomainOf(q), current)
      requires w.read == Done && !current.Corrupt?
      modifies this
      ensures Desk(Answered(answer), files, history)
           == Alone(syntax, id, q, true, Desk(Reading, old(files), old(history)), w)
      ensures answer.Saved? ==>
                WritesFields(syntax, q, old(files).At(DomainOf(q)), files.At(DomainOf(q)))
                && answer.generation == files.At(DomainOf(q)).generation
    {
      var content := NewContent(syntax, current, q);
      match content {
        case Err(ContractError) =>
          return Raised;
        case Err(Refuses(why)) =>
          ClosesAlone(syntax, id, q, Desk(Closing(Failed(ReasonOf(why)), Refused(why)), files, history), w);
          answer := Close(id, Failed(ReasonOf(why)), Refused(why), w.terminal);
        case Ok(c) =>
          NewContentTyped(syntax, current, q, Generation(current) + 1);
          RightWriteFields(syntax, q, current, Stored(Generation(current) + 1, c));
          answer := Store(id, q, current, Stored(Generation(current) + 1, c), w);
      }
    }

    /** The write and the outcome behind it. */
    method Store(id: nat, q: Request, before: File, after: File, w: Weather) returns (answer: Answer)
      requires Typed(syntax, DomainOf(q), files.At(DomainOf(q)))
      requires after.Stored? && Typed(syntax, DomainOf(q), after)
      modifies this
      ensures Desk(Answered(answer), files, history)
           == Alone(syntax, id, q, true, Desk(Writing(before, after), old(files), old(history)), w)
      ensures answer.Saved? ==> files.At(DomainOf(q)) == after && answer.generation == after.generation
    {
      if w.write != NotDone {
        files := files.Put(DomainOf(q), after);
        history := history + [Wrote(id, DomainOf(q), before, after)];
      }
      if w.write != Done {
        ClosesAlone(syntax, id, q, Desk(Closing(Failed(FileIoFailed), Unavailable), files, history), w);
        answer := Close(id, Failed(FileIoFailed), Unavailable, w.terminal);
      } else {
        ClosesAlone(syntax, id, q, Desk(Closing(Succeeded, Saved(Generation(after))), files, history), w);
        answer := Close(id, Succeeded, Saved(Generation(after)), w.terminal);
      }
    }

    /** A whole operation: the check of the actor comes first and stays outside the lock. */
    method Handle(id: nat, q: Request, allowed: bool, w: Weather) returns (answer: Answer)
      requires Typed(syntax, DomainOf(q), files.At(DomainOf(q)))
      modifies this
      ensures Desk(Answered(answer), files, history)
           == Alone(syntax, id, q, allowed, Desk(Arrived, old(files), old(history)), w)
      ensures answer.Saved? ==>
                WritesFields(syntax, q, old(files).At(DomainOf(q)), files.At(DomainOf(q)))
                && answer.generation == files.At(DomainOf(q)).generation
    {
      if !allowed {
        var ok := Append(Denied(id), w.denied);
        return if ok then Forbidden else Unavailable;
      }
      answer := Mutate(id, q, w);
    }
  }
}
