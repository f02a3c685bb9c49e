/**
 Runs in which an operation is cancelled in its write: a saved update is lost, a generation is told
 twice, and the resources document is none that the written changes give.
 */
module ConfigCancellation {
  import opened Wrappers
  import opened ConfigResources
  import opened ConfigEdits
  import opened ConfigProtocol
  import opened ConfigSafety
  import opened ConfigUpdates

  lemma RunGoesOn(x: Syntax, first: Files, acts: seq<Action>, s: System, a: Action)
    requires Run(x, first, acts, s) && Enabled(s, a)
    ensures Run(x, first, acts + [a], Apply(x, s, a))
  {
    IdleInv(x, first);
    RunOn(x, first, Idle(first), acts, a);
  }

  // ---- pieces of runs ----

  /** Nobody is inside, and the request can be carried out on what is stored. */
  predicate Ready(x: Syntax, s: System, q: Request) {
    var f := s.files.At(DomainOf(q));
    s.holder == None && AllTyped(x, s.files) && !f.Corrupt? && NewContent(x, f, q).Ok?
  }

  function NextFile(x: Syntax, s: System, q: Request): File
    requires Ready(x, s, q)
  {
    var f := s.files.At(DomainOf(q));
    Stored(Generation(f) + 1, NewContent(x, f, q).value)
  }

  /** The entry that writes it. */
  function NextWrite(x: Syntax, s: System, q: Request): Entry
    requires Ready(x, s, q)
  {
    Wrote(|s.ops|, DomainOf(q), s.files.At(DomainOf(q)), NextFile(x, s, q))
  }

  /** A further operation stands before its write. */
  function AtWrite(x: Syntax, s: System, q: Request): System
    requires Ready(x, s, q)
  {
    var i := |s.ops|;
    s.(history := s.history + [Started(i)], holder := Some(i), seen := s.seen[i := |s.history| + 1],
       ops := s.ops + [Op(q, true, Writing(s.files.At(DomainOf(q)), NextFile(x, s, q)))])
  }

  /** Or it has been carried out. */
  function WithSaved(x: Syntax, s: System, q: Request): System
    requires Ready(x, s, q)
  {
    var i := |s.ops|;
    s.(files := s.files.Put(DomainOf(q), NextFile(x, s, q)), seen := s.seen[i := |s.history| + 1],
       history := s.history + [Started(i), NextWrite(x, s, q), Terminal(i, Succeeded)],
       ops := s.ops + [Op(q, true, Answered(Saved(NextFile(x, s, q).generation)))])
  }

  /** Or it has been cancelled in its write. */
  function WithCut(x: Syntax, s: System, q: Request): System
    requires Ready(x, s, q)
  {
    var i := |s.ops|;
    s.(flying := s.flying + [NextWrite(x, s, q)], seen := s.seen[i := |s.history| + 1],
       history := s.history + [Started(i)], ops := s.ops + [Op(q, true, Answered(Cancelled))])
  }

  lemma UpdateLast(ops: seq<Op>, a: Op, b: Op)
    ensures (ops + [a])[|ops| := b] == ops + [b]
  {
  }

  /** The system with one more operation, which stands somewhere. */
  function With(s: System, q: Request, p: Phase): System {
    s.(ops := s.ops + [Op(q, true, p)], holder := if Locked(p) then Some(|s.ops|) else s.holder)
  }

  /** One good step of that operation that only brings it on. */
  lemma StepsOn(x: Syntax, first: Files, acts: seq<Action>, s: System, q: Request, p: Phase, n: Phase)
    requires Run(x, first, acts, With(s, q, p)) && s.holder == None && AllTyped(x, s.files)
    requires (p == Arrived && n == Queued) || (p == Queued && n == Starting)
    ensures Run(x, first, acts + [Move(|s.ops|, Done)], With(s, q, n))
  {
    RunGoesOn(x, first, acts, With(s, q, p), Move(|s.ops|, Done));
    UpdateLast(s.ops, Op(q, true, p), Op(q, true, n));
  }

  lemma StartsOn(x: Syntax, first: Files, acts: seq<Action>, s: System, q: Request)
    requires Run(x, first, acts, With(s, q, Starting)) && s.holder == None && AllTyped(x, s.files)
    ensures Run(x, first, acts + [Move(|s.ops|, Done)], With(s.(history := s.history + [Started(|s.ops|)]), q, Reading))
  {
    RunGoesOn(x, first, acts, With(s, q, Starting), Move(|s.ops|, Done));
    UpdateLast(s.ops, Op(q, true, Starting), Op(q, true, Reading));
  }

  lemma Builds(x: Syntax, s: System, q: Request)
    requires Ready(x, s, q)
    ensures Built(x, q, s.files.At(DomainOf(q))) == Writing(s.files.At(DomainOf(q)), NextFile(x, s, q))
  {
  }

  lemma ReadsOn(x: Syntax, first: Files, acts: seq<Action>, s: System, q: Request)
    requires Ready(x, s, q) && Run(x, first, acts, With(s.(history := s.history + [Started(|s.ops|)]), q, Reading))
    ensures Run(x, first, acts + [Move(|s.ops|, Done)], AtWrite(x, s, q))
  {
    var r := With(s.(history := s.history + [Started(|s.ops|)]), q, Reading);
    RunGoesOn(x, first, acts, r, Move(|s.ops|, Done));
    Builds(x, s, q);
    assert Moved(x, r, |s.ops|, Done) == Desk(Built(x, q, s.files.At(DomainOf(q))), s.files, r.history);
    UpdateLast(s.ops, Op(q, true, Reading), Op(q, true, Built(x, q, s.files.At(DomainOf(q)))));
  }

  /** An operation that arrives can go up to its write. */
  lemma Approaches(x: Syntax, first: Files, acts: seq<Action>, s: System, q: Request) returns (more: seq<Action>)
    requires Run(x, first, acts, s) && Ready(x, s, q)
    ensures Run(x, first, more, AtWrite(x, s, q))
  {
    var go := Move(|s.ops|, Done);
    RunGoesOn(x, first, acts, s, Arrive(q, true));
    more := acts + [Arrive(q, true)];
    StepsOn(x, first, more, s, q, Arrived, Queued);
    more := more + [go];
    StepsOn(x, first, more, s, q, Queued, Starting);
    more := more + [go];
    StartsOn(x, first, more, s, q);
    more := more + [go];
    ReadsOn(x, first, more, s, q);
    more := more + [go];
  }

  /** The system behind the write, with the outcome not yet on record. */
  function AtClose(x: Syntax, s: System, q: Request): System
    requires Ready(x, s, q)
  {
    var i := |s.ops|;
    s.(files := s.files.Put(DomainOf(q), NextFile(x, s, q)), seen := s.seen[i := |s.history| + 1], holder := Some(i),
       history := s.history + [Started(i)] + [NextWrite(x, s, q)],
       ops := s.ops + [Op(q, true, Closing(Succeeded, Saved(NextFile(x, s, q).generation)))])
  }

  lemma WritesOn(x: Syntax, first: Files, acts: seq<Action>, s: System, q: Request)
    requires Ready(x, s, q) && Run(x, first, acts, AtWrite(x, s, q))
    ensures Run(x, first, acts + [Move(|s.ops|, Done)], AtClose(x, s, q))
  {
    var f := NextFile(x, s, q);
    RunGoesOn(x, first, acts, AtWrite(x, s, q), Move(|s.ops|, Done));
    UpdateLast(s.ops, Op(q, true, Writing(s.files.At(DomainOf(q)), f)),
               Op(q, true, Closing(Succeeded, Saved(f.generation))));
  }

  lemma ClosesOn(x: Syntax, first: Files, acts: seq<Action>, s: System, q: Request)
    requires Ready(x, s, q) && Run(x, first, acts, AtClose(x, s, q))
    ensures Run(x, first, acts + [Move(|s.ops|, Done)], WithSaved(x, s, q))
  {
    var i, f := |s.ops|, NextFile(x, s, q);
    RunGoesOn(x, first, acts, AtClose(x, s, q), Move(i, Done));
    UpdateLast(s.ops, Op(q, true, Closing(Succeeded, Saved(f.generation))), Op(q, true, Answered(Saved(f.generation))));
    assert s.history + [Started(i)] + [NextWrite(x, s, q)] + [Terminal(i, Succeeded)]
        == s.history + [Started(i), NextWrite(x, s, q), Terminal(i, Succeeded)];
  }

  lemma Saves(x: Syntax, first: Files, acts: seq<Action>, s: System, q: Request) returns (more: seq<Action>)
    requires Run(x, first, acts, s) && Ready(x, s, q)
    ensures Run(x, first, more, WithSaved(x, s, q))
  {
    more := Approaches(x, first, acts, s, q);
    WritesOn(x, first, more, s, q);
    more := more + [Move(|s.ops|, Done)];
    ClosesOn(x, first, more, s, q);
    more := more + [Move(|s.ops|, Done)];
  }

  lemma Cuts(x: Syntax, first: Files, acts: seq<Action>, s: System, q: Request) returns (more: seq<Action>)
    requires Run(x, first, acts, s) && Ready(x, s, q)
    ensures Run(x, first, more, WithCut(x, s, q))
  {
    more := Approaches(x, first, acts, s, q);
    RunGoesOn(x, first, more, AtWrite(x, s, q), CutWrite(|s.ops|));
    assert Apply(x, AtWrite(x, s, q), CutWrite(|s.ops|)) == WithCut(x, s, q);
    more := more + [CutWrite(|s.ops|)];
  }

  /** One write is in the air, and it lands. */
  lemma Lands(x: Syntax, first: Files, acts: seq<Action>, s: System, e: Entry) returns (more: seq<Action>)
    requires Run(x, first, acts, s) && s.flying == [e] && e.Wrote?
    ensures Run(x, first, more, Landed(s, e, Done).(flying := []))
  {
    RunGoesOn(x, first, acts, s, Land(0, Done));
    more := acts + [Land(0, Done)];
  }

  lemma StartsIdle(x: Syntax, first: Files) returns (acts: seq<Action>)
    requires AllTyped(x, first)
    ensures Run(x, first, acts, Idle(first))
  {
    IdleInv(x, first);
    acts := [];
  }

  // ---- the runs ----

  const NO_FILES := Files(Missing, Missing, Missing)

  /** Without a secret the Feishu settings can always be saved. */
  function Enables(): Request { SaveFeishu(Some(true), None, None) }

  function Names(app: string): Request { SaveFeishu(None, Some(app), None) }

  predicate NoSecret(s: System) {
    && s.holder == None && s.files.ai == Missing && s.files.resources == Missing
    && (s.files.feishu == Missing
        || (s.files.feishu.Stored? && s.files.feishu.content.Feishu? && s.files.feishu.content.appSecret == None))
  }

  lemma NoSecretReady(x: Syntax, s: System, q: Request)
    requires NoSecret(s) && q.SaveFeishu? && q.appSecret == None
    ensures Ready(x, s, q)
  {
    forall d: Domain
      ensures Typed(x, d, s.files.At(d))
    {
    }
  }

  const LATE := Wrote(0, FeishuDomain, Missing, Stored(1, Feishu(true, None, None)))

  /** The first request is cancelled in its write. */
  lemma FirstCut(x: Syntax) returns (acts: seq<Action>, t: System)
    ensures Run(x, NO_FILES, acts, t) && NoSecret(t) && t.files == NO_FILES && t.flying == [LATE]
    ensures t.ops == [Op(Enables(), true, Answered(Cancelled))]
    ensures t.history == [Started(0)] && t.seen == map[0 := 1]
  {
    var s := Idle(NO_FILES);
    NoSecretReady(x, s, Enables());
    acts := StartsIdle(x, NO_FILES);
    acts := Cuts(x, NO_FILES, acts, s, Enables());
    t := WithCut(x, s, Enables());
    assert t.flying == [NextWrite(x, s, Enables())];
  }

  /** A request without a secret is carried out. */
  lemma SavesNames(x: Syntax, acts: seq<Action>, s: System, app: string) returns (more: seq<Action>, t: System)
    requires Run(x, NO_FILES, acts, s) && NoSecret(s)
    ensures Run(x, NO_FILES, more, t) && NoSecret(t)
    ensures t.files.feishu.Stored? && t.files.feishu.generation == Generation(s.files.feishu) + 1
    ensures t.ops == s.ops + [Op(Names(app), true, Answered(Saved(t.files.feishu.generation)))]
    ensures t.flying == s.flying && t.seen == s.seen[|s.ops| := |s.history| + 1]
    ensures t.history == s.history + [Started(|s.ops|), Wrote(|s.ops|, FeishuDomain, s.files.feishu, t.files.feishu),
                                      Terminal(|s.ops|, Succeeded)]
  {
    NoSecretReady(x, s, Names(app));
    more := Saves(x, NO_FILES, acts, s, Names(app));
    t := WithSaved(x, s, Names(app));
  }

  /** The first request's write lands late. */
  lemma LateLands(x: Syntax, acts: seq<Action>, s: System) returns (more: seq<Action>, t: System)
    requires Run(x, NO_FILES, acts, s) && NoSecret(s) && s.flying == [LATE]
    ensures Run(x, NO_FILES, more, t) && NoSecret(t) && t.flying == [] && t.files.feishu == LATE.after
    ensures t.ops == s.ops && t.seen == s.seen && t.history == s.history + [LATE]
  {
    more := Lands(x, NO_FILES, acts, s, LATE);
    t := Landed(s, LATE, Done).(flying := []);
  }

  lemma SecondSaved(x: Syntax) returns (acts: seq<Action>, t: System)
    ensures Run(x, NO_FILES, acts, t) && NoSecret(t) && t.flying == [LATE]
    ensures t.ops == [Op(Enables(), true, Answered(Cancelled)), Op(Names("app"), true, Answered(Saved(1)))]
    ensures t.files.feishu.Stored? && t.files.feishu.generation == 1 && t.seen == map[0 := 1, 1 := 2]
    ensures t.history == [Started(0), Started(1), Wrote(1, FeishuDomain, Missing, t.files.feishu),
                          Terminal(1, Succeeded)]
  {
    var s;
    acts, s := FirstCut(x);
    acts, t := SavesNames(x, acts, s, "app");
  }

  /** The first operation is cancelled in its write, the second is told that generation 1 with its app id
      is saved, then the first one's write lands: the app id is gone. */
  lemma UpdateLost(x: Syntax) returns (acts: seq<Action>, t: System)
    ensures Run(x, NO_FILES, acts, t) && t.flying == []
    ensures t.ops == [Op(Enables(), true, Answered(Cancelled)), Op(Names("app"), true, Answered(Saved(1)))]
    ensures t.files.feishu == Stored(1, Feishu(true, None, None))
    ensures !Undisturbed(t.history, t.seen, FeishuDomain)
  {
    var s;
    acts, s := SecondSaved(x);
    acts, t := LateLands(x, acts, s);
    assert WroteTo(t.history, 2, FeishuDomain) && WroteTo(t.history, 4, FeishuDomain);
    assert Disturbs(t.history, t.seen, 2, 4);
  }

  lemma ThirdSaved(x: Syntax) returns (acts: seq<Action>, t: System)
    ensures Run(x, NO_FILES, acts, t) && NoSecret(t) && t.flying == [LATE]
    ensures |t.ops| == 3 && t.ops[2] == Op(Names("b"), true, Answered(Saved(2)))
  {
    var s;
    acts, s := SecondSaved(x);
    acts, t := SavesNames(x, acts, s, "b");
  }

  /** A late write sets the generation back, and two operations are told that they saved generation 2. */
  lemma GenerationToldTwice(x: Syntax) returns (acts: seq<Action>, t: System)
    ensures Run(x, NO_FILES, acts, t) && |t.ops| == 4
    ensures t.ops[2] == Op(Names("b"), true, Answered(Saved(2))) && t.ops[3] == Op(Names("c"), true, Answered(Saved(2)))
  {
    var s;
    acts, s := ThirdSaved(x);
    acts, t := LateLands(x, acts, s);
    acts, t := FourthSaved(x, acts, t);
  }

  lemma FourthSaved(x: Syntax, acts: seq<Action>, s: System) returns (more: seq<Action>, t: System)
    requires Run(x, NO_FILES, acts, s) && NoSecret(s) && s.files.feishu == LATE.after
    ensures Run(x, NO_FILES, more, t) && t.ops == s.ops + [Op(Names("c"), true, Answered(Saved(2)))]
  {
    more, t := SavesNames(x, acts, s, "c");
  }

  // ---- the document ----

  /** A contract that accepts every single string. */
  const LENIENT := Syntax(_ => true, _ => true, _ => true, _ => true, _ => true, _ => false)

  const DRAFT := PrometheusDraft(Dev, "metrics", Disabled, true, "http://metrics", NoAuth, None, None)

  function Adding(id: string): Request { EditResources(Create(id, DRAFT)) }

  function Added(id: string): Resource { FromDraft(id, DRAFT) }

  lemma Addable(rs: seq<Resource>, id: string)
    requires ValidDocument(LENIENT, rs) && !Has(rs, id) && |rs| < MAX_RESOURCES
    ensures NewDocument(LENIENT, rs, Create(id, DRAFT)) == Ok(rs + [Added(id)])
  {
    assert Valid(LENIENT, Added(id)) && !SecretRequired(Added(id));
    var n := rs + [Added(id)];
    assert ValidDocument(LENIENT, n);
  }

  const LATE_DOCUMENT := Wrote(0, ResourcesDomain, Missing, Stored(1, Listed([Added("a")])))

  lemma AddingReady(s: System, id: string)
    requires s.holder == None && s.files == NO_FILES
    ensures Ready(LENIENT, s, Adding(id)) && NextFile(LENIENT, s, Adding(id)) == Stored(1, Listed([Added(id)]))
  {
    Addable([], id);
    assert [] + [Added(id)] == [Added(id)];
    assert NewContent(LENIENT, Missing, Adding(id)) == Ok(Listed([Added(id)]));
    forall d: Domain
      ensures Typed(LENIENT, d, NO_FILES.At(d))
    {
    }
  }

  lemma FirstAdditionCut() returns (acts: seq<Action>, t: System)
    ensures Run(LENIENT, NO_FILES, acts, t) && t.holder == None && t.files == NO_FILES && t.flying == [LATE_DOCUMENT]
    ensures t.ops == [Op(Adding("a"), true, Answered(Cancelled))] && t.history == [Started(0)]
  {
    var s := Idle(NO_FILES);
    AddingReady(s, "a");
    acts := StartsIdle(LENIENT, NO_FILES);
    acts := Cuts(LENIENT, NO_FILES, acts, s, Adding("a"));
    t := WithCut(LENIENT, s, Adding("a"));
    assert t.flying == [NextWrite(LENIENT, s, Adding("a"))];
  }

  lemma SecondAdditionSaved() returns (acts: seq<Action>, t: System)
    ensures Run(LENIENT, NO_FILES, acts, t) && t.flying == [LATE_DOCUMENT]
    ensures t.ops == [Op(Adding("a"), true, Answered(Cancelled)), Op(Adding("b"), true, Answered(Saved(1)))]
    ensures t.history == [Started(0), Started(1), Wrote(1, ResourcesDomain, Missing, Stored(1, Listed([Added("b")]))),
                          Terminal(1, Succeeded)]
  {
    var s;
    acts, s := FirstAdditionCut();
    AddingReady(s, "b");
    acts := Saves(LENIENT, NO_FILES, acts, s, Adding("b"));
    t := WithSaved(LENIENT, s, Adding("b"));
  }

  /** A late write drops a resource that was created meanwhile: the document holds one resource where the
      written changes, one after the other, give two. */
  lemma DocumentNotSerial() returns (acts: seq<Action>, t: System)
    ensures Run(LENIENT, NO_FILES, acts, t) && |t.ops| == 2 && t.ops[1] == Op(Adding("b"), true, Answered(Saved(1)))
    ensures ResourcesOf(t.files.resources) == [Added("a")]
    ensures Steps(LENIENT, [], WrittenChanges(t.ops, t.history)) == [Added("b"), Added("a")]
  {
    var s;
    acts, s := SecondAdditionSaved();
    acts := Lands(LENIENT, NO_FILES, acts, s, LATE_DOCUMENT);
    t := Landed(s, LATE_DOCUMENT, Done).(flying := []);
    TwoChanges(t.ops, t.history);
  }

  lemma TwoChanges(ops: seq<Op>, h: seq<Entry>)
    requires |ops| == 2 && ops[0].request == Adding("a") && ops[1].request == Adding("b")
    requires |h| == 5 && !h[0].Wrote? && !h[1].Wrote? && h[2].Wrote? && !h[3].Wrote? && h[4].Wrote?
    requires h[2].op == 1 && h[4].op == 0
    ensures Steps(LENIENT, [], WrittenChanges(ops, h)) == [Added("b"), Added("a")]
  {
    assert h[..4][..3] == h[..3] && h[..3][..2] == h[..2] && h[..2][..1] == h[..1] && h[..1][..0] == [];
    assert WrittenChanges(ops, h[..1]) == [];
    assert WrittenChanges(ops, h[..2]) == [];
    assert WrittenChanges(ops, h[..3]) == [Create("b", DRAFT)];
    assert WrittenChanges(ops, h[..4]) == [Create("b", DRAFT)];
    assert WrittenChanges(ops, h) == [Create("b", DRAFT), Create("a", DRAFT)];
    Addable([], "b");
    assert "a"[0] != "b"[0];
    Addable([Added("b")], "a");
    StepsAppend(LENIENT, [], [Create("b", DRAFT)], Create("a", DRAFT));
  }
}
