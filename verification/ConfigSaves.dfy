/**
 What saves and clearings of the AI and Feishu settings write, field by field, and that a secret only
 goes with a clearing.
 */
module ConfigSaves {
  import opened Wrappers
  import opened ConfigResources
  import opened ConfigFields
  import opened ConfigProtocol
  import opened ConfigSafety
  import opened ConfigTheorems

  // ---- fields ----

  /** The stored settings; disabled and empty where nothing is stored. */
  function AiSettings(f: File): Content { if f.Stored? && f.content.Gemini? then f.content else Gemini(false, None) }

  function FeishuSettings(f: File): Content {
    if f.Stored? && f.content.Feishu? then f.content else Feishu(false, None, None)
  }

  /** What a request writes over a file, field by field, one generation on. */
  ghost predicate WritesFields(x: Syntax, q: Request, before: File, after: File) {
    && after.Stored? && after.generation == (if before.Stored? then before.generation else 0) + 1
    && match q
       case SaveAi(enabled, key) =>
         && after.content.Gemini? && Takes(enabled, AiSettings(before).enabled, after.content.enabled)
         && TakesOptional(key, AiSettings(before).apiKey, after.content.apiKey)
       case ClearAi => after.content.Gemini? && !after.content.enabled && after.content.apiKey == None
       case SaveFeishu(enabled, appId, secret) =>
         && after.content.Feishu? && Takes(enabled, FeishuSettings(before).enabled, after.content.enabled)
         && TakesOptional(appId, FeishuSettings(before).appId, after.content.appId)
         && TakesOptional(secret, FeishuSettings(before).appSecret, after.content.appSecret)
       case ClearFeishu =>
         && after.content.Feishu? && !after.content.enabled && after.content.appId == None
         && after.content.appSecret == None
       case EditResources(change) =>
         after.content.Listed?
         && ChangesTo(x, if before.Stored? && before.content.Listed? then before.content.resources else [], change,
                      after.content.resources)
  }

  lemma RightWriteFields(x: Syntax, q: Request, before: File, after: File)
    requires RightWrite(x, q, before, after)
    ensures WritesFields(x, q, before, after)
  {
    if q.EditResources? {
      ChangeMeans(x, ResourcesOf(before), q.change);
    }
  }

  /** In every run each write on record changes exactly the fields that its request carries or clears. */
  lemma EveryWriteFields(x: Syntax, first: Files, acts: seq<Action>, s: System, k: nat)
    requires Run(x, first, acts, s) && k < |s.history| && s.history[k].Wrote?
    ensures s.history[k].op < |s.ops|
    ensures WritesFields(x, s.ops[s.history[k].op].request, s.history[k].before, s.history[k].after)
  {
    WriteBehindStart(x, first, acts, s, k);
    RightWriteFields(x, s.ops[s.history[k].op].request, s.history[k].before, s.history[k].after);
  }

  /** An operation that was told a success has such a write on record, with the generation it was told. */
  lemma SavedFields(x: Syntax, first: Files, acts: seq<Action>, s: System, i: nat)
    requires Run(x, first, acts, s) && i < |s.ops| && s.ops[i].phase.Answered? && s.ops[i].phase.answer.Saved?
    ensures exists e: Entry :: e in s.history && SavedBy(x, s, i, e)
  {
    AnswersTellTheRecord(x, first, acts, s, i);
    var e := Story(s.history, i)[1];
    RightWriteFields(x, s.ops[i].request, e.before, e.after);
    StoryIsOnRecord(s.history, i, e);
  }

  ghost predicate SavedBy(x: Syntax, s: System, i: nat, e: Entry)
    requires i < |s.ops|
  {
    && e.Wrote? && e.op == i && e.after.Stored? && s.ops[i].phase == Answered(Saved(e.after.generation))
    && WritesFields(x, s.ops[i].request, e.before, e.after)
  }

  // ---- secrets ----

  predicate HasKey(f: File) { f.Stored? && f.content.Gemini? && f.content.apiKey.Some? }

  predicate HasSecret(f: File) { f.Stored? && f.content.Feishu? && f.content.appSecret.Some? }

  /** Every write on record changes the fields of its request's domain and no other file. */
  ghost predicate FieldWrites(x: Syntax, ops: seq<Op>, h: seq<Entry>) {
    forall k :: 0 <= k < |h| && h[k].Wrote? ==>
                  h[k].op < |ops| && h[k].domain == DomainOf(ops[h[k].op].request)
                  && WritesFields(x, ops[h[k].op].request, h[k].before, h[k].after)
  }

  /** A clearing was written. */
  predicate ClearingWritten(ops: seq<Op>, h: seq<Entry>, q: Request) {
    exists k :: 0 <= k < |h| && h[k].Wrote? && h[k].op < |ops| && ops[h[k].op].request == q
  }

  lemma {:induction false} KeyInEveryFile(x: Syntax, ops: seq<Op>, first: Files, h: seq<Entry>, seen: map<nat, nat>,
                                          n: nat)
    requires n <= |h| && FieldWrites(x, ops, h) && WritesRead(first, h, seen)
    requires HasKey(first.ai) && !ClearingWritten(ops, h, ClearAi)
    ensures HasKey(Replay(first, h[..n]).ai)
  {
    if n > 0 {
      var e := h[n - 1];
      assert h[..n][..n - 1] == h[..n - 1];
      KeyInEveryFile(x, ops, first, h, seen, n - 1);
      if e.Wrote? && e.domain == AiDomain {
        KeyInEveryFile(x, ops, first, h, seen, seen[e.op]);
        assert ops[e.op].request.SaveAi?;
      }
    }
  }

  lemma {:induction false} SecretInEveryFile(x: Syntax, ops: seq<Op>, first: Files, h: seq<Entry>, seen: map<nat, nat>,
                                             n: nat)
    requires n <= |h| && FieldWrites(x, ops, h) && WritesRead(first, h, seen)
    requires HasSecret(first.feishu) && !ClearingWritten(ops, h, ClearFeishu)
    ensures HasSecret(Replay(first, h[..n]).feishu)
  {
    if n > 0 {
      var e := h[n - 1];
      assert h[..n][..n - 1] == h[..n - 1];
      SecretInEveryFile(x, ops, first, h, seen, n - 1);
      if e.Wrote? && e.domain == FeishuDomain {
        SecretInEveryFile(x, ops, first, h, seen, seen[e.op]);
        assert ops[e.op].request.SaveFeishu?;
      }
    }
  }

  lemma AllFieldWrites(x: Syntax, first: Files, acts: seq<Action>, s: System)
    requires Run(x, first, acts, s)
    ensures FieldWrites(x, s.ops, s.history)
  {
    forall k | 0 <= k < |s.history| && s.history[k].Wrote?
      ensures s.history[k].op < |s.ops| && s.history[k].domain == DomainOf(s.ops[s.history[k].op].request)
      ensures WritesFields(x, s.ops[s.history[k].op].request, s.history[k].before, s.history[k].after)
    {
      WriteBehindStart(x, first, acts, s, k);
      EveryWriteFields(x, first, acts, s, k);
    }
  }

  /** In every run a configured API key and a configured Feishu secret stay configured in every file of their
      domain, unless a clearing of the domain was written. */
  lemma SettingsSecretsSurvive(x: Syntax, first: Files, acts: seq<Action>, s: System, n: nat)
    requires Run(x, first, acts, s) && n <= |s.history|
    ensures HasKey(first.ai) && !ClearingWritten(s.ops, s.history, ClearAi) ==>
              HasKey(Replay(first, s.history[..n]).ai) && HasKey(s.files.ai)
    ensures HasSecret(first.feishu) && !ClearingWritten(s.ops, s.history, ClearFeishu) ==>
              HasSecret(Replay(first, s.history[..n]).feishu) && HasSecret(s.files.feishu)
  {
    AllFieldWrites(x, first, acts, s);
    assert s.history[..|s.history|] == s.history;
    if HasKey(first.ai) && !ClearingWritten(s.ops, s.history, ClearAi) {
      KeyInEveryFile(x, s.ops, first, s.history, s.seen, n);
      KeyInEveryFile(x, s.ops, first, s.history, s.seen, |s.history|);
    }
    if HasSecret(first.feishu) && !ClearingWritten(s.ops, s.history, ClearFeishu) {
      SecretInEveryFile(x, s.ops, first, s.history, s.seen, n);
      SecretInEveryFile(x, s.ops, first, s.history, s.seen, |s.history|);
    }
  }
}
