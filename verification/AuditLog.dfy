/** `crates/contextra-agent/src/audit.rs` and the key-value store of the collection it writes to: the
    append-only audit trail, and what reading a task's trail back by key prefix returns. */
module AuditLog {
  import opened Basics

  // A JSON value, of which the engine only ever inspects whether it is null.
  datatype Value = Null | Json(text: string)

  datatype Entry = Entry(taskId: string, step: nat, nodeId: string, tokens: nat, payload: Value, error: Option<string>)

  // What the engine stores: audit entries, commit records, final states.
  datatype Record =
    | Audit(entry: Entry)
    | Commit(taskId: string, step: nat, nodeId: string, output: Value, tokens: nat)
    | Final(taskId: string, step: nat, tokensTotal: nat)

  type Store = map<string, Record>

  // ---- Keys -------------------------------------------------------------------------------------

  const STEP := ":step:"

  function Digit(n: nat): (c: char)
    requires n < 10
    ensures '0' <= c <= '9'
  {
    "0123456789"[n]
  }

  function Decimal(n: nat): (s: string)
    ensures s != [] && forall i :: 0 <= i < |s| ==> '0' <= s[i] <= '9'
  {
    if n < 10 then [Digit(n)] else Decimal(n / 10) + [Digit(n % 10)]
  }

  function AuditKey(taskId: string, step: nat): string {
    "audit:" + taskId + STEP + Decimal(step)
  }

  function CommitKey(taskId: string, step: nat): string {
    "task:" + taskId + STEP + Decimal(step)
  }

  function FinalKey(taskId: string): string {
    "task:" + taskId + ":final"
  }

  function ScanPrefix(taskId: string): string {
    "audit:" + taskId + STEP
  }

  function KeyOf(r: Record): string {
    match r
    case Audit(e) => AuditKey(e.taskId, e.step)
    case Commit(taskId, step, _, _, _) => CommitKey(taskId, step)
    case Final(taskId, _, _) => FinalKey(taskId)
  }

  // The number a string of digits stands for.
  function Number(s: string): int {
    if s == [] then 0 else 10 * Number(s[..|s| - 1]) + (s[|s| - 1] as int - '0' as int)
  }

  lemma DigitReads(n: nat)
    requires n < 10
    ensures Digit(n) as int - '0' as int == n
  {
  }

  /** A number's decimal digits stand for it, the most significant first and without a leading zero. */
  lemma {:induction false} DecimalReads(n: nat)
    ensures Number(Decimal(n)) == n
    ensures n > 0 ==> Decimal(n)[0] != '0'
  {
    hide Digit;
    DigitReads(n % 10);
    var s := Decimal(n);
    if n < 10 {
      assert Number(s[..0]) == 0;
    } else {
      DecimalReads(n / 10);
      assert s[..|s| - 1] == Decimal(n / 10);
    }
  }

  lemma DecimalInjective(m: nat, n: nat)
    requires Decimal(m) == Decimal(n)
    ensures m == n
  {
    DecimalReads(m);
    DecimalReads(n);
  }

  // Two readings of one string as `left`, a colon, and a colon-free `right` are the same reading.
  lemma LastColon(a: string, b: string, a': string, b': string)
    requires a + [':'] + b == a' + [':'] + b'
    requires ':' !in b && ':' !in b'
    ensures a == a' && b == b'
  {
    var s, s' := a + [':'] + b, a' + [':'] + b';
    assert forall i :: |a| < i < |s| ==> s[i] == b[i - |a| - 1];
    assert forall i :: |a'| < i < |s'| ==> s'[i] == b'[i - |a'| - 1];
    assert s[|a|] == ':' && s'[|a'|] == ':';
    assert |a| == |a'|;
    assert a == s[..|a|] && a' == s'[..|a'|];
    assert b == s[|a| + 1..] && b' == s'[|a'| + 1..];
  }

  lemma DecimalHasNoColon(n: nat)
    ensures ':' !in Decimal(n)
  {
  }

  /** An audit key belongs to one task and one step. */
  lemma AuditKeyInjective(t: string, n: nat, t': string, n': nat)
    requires AuditKey(t, n) == AuditKey(t', n')
    ensures t == t' && n == n'
  {
    DecimalHasNoColon(n);
    DecimalHasNoColon(n');
    var a, a' := "audit:" + t + ":step", "audit:" + t' + ":step";
    assert AuditKey(t, n) == a + [':'] + Decimal(n);
    assert AuditKey(t', n') == a' + [':'] + Decimal(n');
    LastColon(a, Decimal(n), a', Decimal(n'));
    Trimmed(t, t', "audit:", ":step");
    DecimalInjective(n, n');
  }

  /** A commit key too. */
  lemma CommitKeyInjective(t: string, n: nat, t': string, n': nat)
    requires CommitKey(t, n) == CommitKey(t', n')
    ensures t == t' && n == n'
  {
    DecimalHasNoColon(n);
    DecimalHasNoColon(n');
    var a, a' := "task:" + t + ":step", "task:" + t' + ":step";
    assert CommitKey(t, n) == a + [':'] + Decimal(n);
    assert CommitKey(t', n') == a' + [':'] + Decimal(n');
    LastColon(a, Decimal(n), a', Decimal(n'));
    Trimmed(t, t', "task:", ":step");
    DecimalInjective(n, n');
  }

  lemma Trimmed(t: string, t': string, front: string, back: string)
    requires front + t + back == front + t' + back
    ensures t == t'
  {
    var s, s' := front + t + back, front + t' + back;
    assert t == s[|front|..|s| - |back|] && t' == s'[|front|..|s'| - |back|];
  }

  /** The three kinds of records never share a key. */
  lemma KeysApart(t: string, n: nat, t': string, n': nat)
    ensures AuditKey(t, n) != CommitKey(t', n') && AuditKey(t, n) != FinalKey(t') && CommitKey(t, n) != FinalKey(t')
  {
    assert AuditKey(t, n)[0] == 'a' && CommitKey(t', n')[0] == 't' && FinalKey(t')[0] == 't';
    DecimalHasNoColon(n);
    var a := "task:" + t + ":step";
    assert CommitKey(t, n) == a + [':'] + Decimal(n);
    assert FinalKey(t') == "task:" + t' + [':'] + "final";
    assert Decimal(n)[0] != "final"[0];
    if CommitKey(t, n) == FinalKey(t') {
      LastColon(a, Decimal(n), "task:" + t', "final");
    }
  }

  // ---- Reading a trail back ---------------------------------------------------------------------

  // Every record is stored under its own key.
  ghost predicate WellKeyed(kv: Store) {
    forall k :: k in kv ==> k == KeyOf(kv[k])
  }

  lemma SameEntry(kv: Store, k: string, k': string)
    requires WellKeyed(kv) && k in kv && k' in kv && kv[k] == kv[k']
    ensures k == k'
  {
  }

  // The scan's limit: one result more is an error.
  const DEFAULT_SCAN_LIMIT: nat := 10000

  function Scanned(kv: Store, prefix: string): set<string> {
    set k | k in kv && prefix <= k
  }

  predicate Ordered(es: seq<Entry>) {
    forall i, j :: 0 <= i < j < |es| ==> es[i].step <= es[j].step
  }

  // Where a stable sort by step puts an entry that comes after all of `es`.
  function InsertByStep(e: Entry, es: seq<Entry>): seq<Entry> {
    if es == [] then [e]
    else if e.step < es[|es| - 1].step then InsertByStep(e, es[..|es| - 1]) + [es[|es| - 1]]
    else es + [e]
  }

  lemma {:induction false} InsertKeepsOrder(e: Entry, es: seq<Entry>)
    requires Ordered(es)
    ensures Ordered(InsertByStep(e, es))
    ensures multiset(InsertByStep(e, es)) == multiset(es) + multiset{e}
    decreases |es|
  {
    if es != [] && e.step < es[|es| - 1].step {
      var front, last := es[..|es| - 1], es[|es| - 1];
      assert es == front + [last];
      InsertKeepsOrder(e, front);
      BeforeLast(e, front, last);
    }
  }

  lemma BeforeLast(e: Entry, front: seq<Entry>, last: Entry)
    requires Ordered(front + [last]) && e.step < last.step
    requires Ordered(InsertByStep(e, front)) && multiset(InsertByStep(e, front)) == multiset(front) + multiset{e}
    ensures Ordered(InsertByStep(e, front) + [last])
  {
    var r := InsertByStep(e, front);
    forall i | 0 <= i < |r| ensures r[i].step <= last.step {
      assert r[i] in multiset(r);
      assert r[i] == e || r[i] in front;
      if r[i] in front {
        var k :| 0 <= k < |front| && front[k] == r[i];
        assert (front + [last])[k].step <= (front + [last])[|front|].step;
      }
    }
  }

  /** `replay_task`, for a well-formed task id. */
  method ReplayTask(kv: Store, taskId: string) returns (res: Option<seq<Entry>>)
    ensures res.None? <==> |Scanned(kv, ScanPrefix(taskId))| > 10000
    ensures res.Some? ==> Ordered(res.value)
    ensures res.Some? ==> forall e :: e in res.value <==>
      exists k :: k in Scanned(kv, ScanPrefix(taskId)) && kv[k] == Audit(e)
    ensures res.Some? && WellKeyed(kv) ==>
      forall i, j :: 0 <= i < j < |res.value| ==> res.value[i] != res.value[j]
  {
    var raw := Scanned(kv, ScanPrefix(taskId));
    if |raw| > DEFAULT_SCAN_LIMIT {
      return None;
    }
    var entries: seq<Entry> := [];
    var rest := raw;
    while rest != {}
      invariant rest <= raw && Ordered(entries)
      invariant forall e :: e in entries <==> exists k :: k in raw && k !in rest && kv[k] == Audit(e)
      invariant WellKeyed(kv) ==> forall e :: multiset(entries)[e] <= 1
      decreases |rest|
    {
      var k :| k in rest;
      rest := rest - {k};
      if kv[k].Audit? {
        ghost var before := entries;
        var e := kv[k].entry;
        InsertKeepsOrder(e, entries);
        entries := InsertByStep(e, entries);
        SameMembers(before, entries, e);
        assert WellKeyed(kv) ==> e !in before by {
          forall k' | WellKeyed(kv) && k' in raw && kv[k'] == Audit(e) ensures k' == k { SameEntry(kv, k, k'); }
        }
      }
    }
    if WellKeyed(kv) {
      NoRepeats(entries);
    }
    res := Some(entries);
  }

  lemma SameMembers(before: seq<Entry>, after: seq<Entry>, e: Entry)
    requires multiset(after) == multiset(before) + multiset{e}
    ensures forall x :: x in after <==> x in before || x == e
  {
    forall x ensures x in after <==> x in before || x == e {
      assert x in after <==> x in multiset(after);
      assert x in before <==> x in multiset(before);
    }
  }

  lemma NoRepeats(es: seq<Entry>)
    requires forall e :: multiset(es)[e] <= 1
    ensures forall i, j :: 0 <= i < j < |es| ==> es[i] != es[j]
  {
    forall i, j | 0 <= i < j < |es| ensures es[i] != es[j] {
      assert es == es[..j] + es[j..];
      assert es[i] in multiset(es[..j]) && es[j] in multiset(es[j..]);
      assert multiset(es)[es[i]] == multiset(es[..j])[es[i]] + multiset(es[j..])[es[i]];
    }
  }

  // Task ids whose keys begin like those of `taskId`.
  predicate Shadows(other: string, taskId: string) {
    taskId + STEP <= other + ":"
  }

  /** Which audit keys the scan for a task meets. */
  lemma ScanMeets(taskId: string, other: string, n: nat)
    ensures ScanPrefix(taskId) <= AuditKey(other, n) <==> other == taskId || Shadows(other, taskId)
  {
    var p, w := taskId + STEP, other + STEP + Decimal(n);
    Beheaded("audit:", p, w, ScanPrefix(taskId), AuditKey(other, n));
    if p <= w {
      PrefixInside(taskId, other, n);
    }
    if Shadows(other, taskId) {
      assert other + ":" <= w by { assert w[..|other| + 1] == other + ":"; }
      assert p == (other + ":")[..|p|] == w[..|p|];
    }
    if other == taskId {
      assert w[..|p|] == p;
    }
  }

  lemma Beheaded(front: string, p: string, w: string, fp: string, fw: string)
    requires fp == front + p && fw == front + w
    ensures fp <= fw <==> p <= w
  {
    if p <= w { assert fw == fp + w[|p|..]; }
    if fp <= fw {
      forall i | 0 <= i < |p| ensures p[i] == w[i] {
        assert fp[|front| + i] == fw[|front| + i];
      }
    }
  }

  lemma PrefixInside(t: string, o: string, n: nat)
    requires t + STEP <= o + STEP + Decimal(n)
    ensures o == t || Shadows(o, t)
  {
    var p, w := t + STEP, o + STEP + Decimal(n);
    // The last colon of `p` cannot fall among the digits of `w`.
    assert forall i :: |o| + 6 <= i < |w| ==> w[i] == Decimal(n)[i - |o| - 6];
    assert w[|t| + 5] == p[|t| + 5] == STEP[5] == ':';
    assert |t| <= |o|;
    if |o| == |t| {
      assert o == w[..|o|] == p[..|t|] == t;
    } else if |o| < |t| + 5 {
      var i := |o| - |t|;
      assert w[|t| + i] == p[|t| + i] == STEP[i];
      assert w[|o|] == STEP[0];
      StepColons(i);
    } else {
      assert (o + ":")[..|p|] == w[..|p|] == p;
    }
  }

  lemma StepColons(i: nat)
    requires 0 < i < 5
    ensures STEP[i] != STEP[0]
  {
  }

  /** Reading a task's trail back returns that task's entries and no others if and only if no audited task
      has an id that, with a colon added, begins with this task's id and ":step:". */
  lemma ReplayExact(kv: Store, taskId: string)
    requires WellKeyed(kv)
    ensures (forall k :: k in Scanned(kv, ScanPrefix(taskId)) && kv[k].Audit? ==> kv[k].entry.taskId == taskId) <==>
            (forall k :: k in kv && kv[k].Audit? && Shadows(kv[k].entry.taskId, taskId) ==>
              kv[k].entry.taskId == taskId)
    ensures forall k :: k in kv && kv[k].Audit? && kv[k].entry.taskId == taskId ==> k in Scanned(kv, ScanPrefix(taskId))
  {
    forall k | k in kv && kv[k].Audit?
      ensures k in Scanned(kv, ScanPrefix(taskId)) <==>
        kv[k].entry.taskId == taskId || Shadows(kv[k].entry.taskId, taskId)
    {
      ScanMeets(taskId, kv[k].entry.taskId, kv[k].entry.step);
    }
  }

  /** One task's trail can contain another's. */
  lemma ReplayLeak()
    ensures var e := Entry("a:step", 5, "n", 0, Null, None);
      var kv := map[AuditKey("a:step", 5) := Audit(e)];
      WellKeyed(kv) && AuditKey("a:step", 5) in Scanned(kv, ScanPrefix("a")) && e.taskId != "a"
  {
  }
}
