/** The idempotency key of one usage report: `meet:<tenant>:<room>:<start>:<finish>`. */
module UsageKey {
  import opened TenantGate

  const NANOS_PER_SECOND: int := 1_000_000_000
  /** The zero `time.Time`, midnight of 1 January of the year 1, in Unix nanoseconds. */
  const ZERO_TIME: int := -62_135_596_800 * 1_000_000_000

  /** `t.Unix()`: whole seconds, rounded down. */
  function UnixSeconds(t: int): int {
    t / NANOS_PER_SECOND
  }

  function UnixOrZero(t: int): int {
    if t == ZERO_TIME then 0 else UnixSeconds(t)
  }

  const DIGITS := "0123456789"

  /** The `%d` verb on a non-negative number. */
  function Digits(n: nat): string {
    if n < 10 then [DIGITS[n]] else Digits(n / 10) + [DIGITS[n % 10]]
  }

  /** The `%d` verb. */
  function Decimal(n: int): string {
    if n < 0 then "-" + Digits(-n) else Digits(n)
  }

  function KeyFor(tenant: string, shortRoom: string, startedAt: int, finishedAt: int): string {
    "meet:" + tenant + ":" + shortRoom + ":" + Decimal(UnixOrZero(startedAt))
    + ":" + Decimal(UnixSeconds(finishedAt))
  }

  predicate IsDigit(c: char) { '0' <= c <= '9' }

  lemma {:induction false} DigitsShape(n: nat)
    ensures Digits(n) != "" && forall i :: 0 <= i < |Digits(n)| ==> IsDigit(Digits(n)[i])
  {
    if n >= 10 { DigitsShape(n / 10); }
  }

  /** Whole seconds, rounded down, before 1970 too; the zero time counts as second zero. */
  lemma SecondsRoundDown(t: int)
    ensures UnixSeconds(t) * 1_000_000_000 <= t < (UnixSeconds(t) + 1) * 1_000_000_000
    ensures UnixOrZero(t) == if t == -62_135_596_800_000_000_000 then 0 else UnixSeconds(t)
  {}

  // ---- Reading a key back --------------------------------------------------------------------

  datatype KeyFields = KeyFields(tenant: string, room: string, started: int, finished: int)

  /** The number a run of digits denotes. */
  function ValueOf(s: string): int {
    if s == "" then 0 else 10 * ValueOf(s[..|s|-1]) + (s[|s|-1] as int - '0' as int)
  }

  function ParseInt(s: string): int {
    if s != "" && s[0] == '-' then -ValueOf(s[1..]) else ValueOf(s)
  }

  function LastIndexOf(s: string, c: char): int {
    if s == "" then -1 else if s[|s|-1] == c then |s| - 1 else LastIndexOf(s[..|s|-1], c)
  }

  /** What stands before and behind the first colon. */
  function CutFirst(s: string): (string, string) {
    var i := IndexOf(s, ':');
    (s[..i], if i < |s| then s[i+1..] else "")
  }

  /** What stands before and behind the last colon. */
  function CutLast(s: string): (string, string) {
    var i := LastIndexOf(s, ':');
    if 0 <= i < |s| then (s[..i], s[i+1..]) else ("", s)
  }

  function ParseKey(key: string): KeyFields {
    var (tenant, rest) := CutFirst(CutFirst(key).1);
    var (front, finished) := CutLast(rest);
    var (room, started) := CutLast(front);
    KeyFields(tenant, room, ParseInt(started), ParseInt(finished))
  }

  lemma {:induction false} DigitsReadBack(n: nat)
    ensures ValueOf(Digits(n)) == n
  {
    if n < 10 {
      assert [DIGITS[n]][..0] == "";
    } else {
      DigitsReadBack(n / 10);
      var s := Digits(n);
      assert s[..|s|-1] == Digits(n / 10);
    }
  }

  lemma DecimalReadsBack(n: int)
    ensures ParseInt(Decimal(n)) == n
  {
    DigitsShape(if n < 0 then -n else n);
    DigitsReadBack(if n < 0 then -n else n);
  }

  lemma DecimalHasNoColon(n: int)
    ensures ':' !in Decimal(n)
  {
    if n < 0 { DigitsShape(-n); } else { DigitsShape(n); }
  }

  lemma FirstCut(a: string, x: string)
    requires ':' !in a
    ensures CutFirst(a + ":" + x) == (a, x)
  {
    var s := a + ":" + x;
    var i := IndexOf(s, ':');
    assert s[|a|] == ':';
    assert forall j :: 0 <= j < |a| ==> s[j] == a[j];
    assert forall j :: 0 <= j < i ==> s[..i][j] == s[j];
    assert i == |a|;
    assert s[..i] == a && s[i+1..] == x;
  }

  lemma {:induction false} LastColonAt(x: string, a: string)
    requires ':' !in a
    ensures LastIndexOf(x + ":" + a, ':') == |x|
  {
    var s := x + ":" + a;
    if a != "" {
      assert s[..|s|-1] == x + ":" + a[..|a|-1];
      LastColonAt(x, a[..|a|-1]);
    }
  }

  lemma LastCut(x: string, a: string)
    requires ':' !in a
    ensures CutLast(x + ":" + a) == (x, a)
  {
    LastColonAt(x, a);
    var s := x + ":" + a;
    assert s[..|x|] == x && s[|x|+1..] == a;
  }

  lemma KeyCuts(tenant: string, room: string, a: string, b: string)
    requires ':' !in tenant && ':' !in a && ':' !in b
    ensures var rest := room + ":" + a + ":" + b;
            && CutFirst("meet" + ":" + (tenant + ":" + rest)).1 == tenant + ":" + rest
            && CutFirst(tenant + ":" + rest) == (tenant, rest)
            && CutLast(rest) == (room + ":" + a, b) && CutLast(room + ":" + a) == (room, a)
  {
    var rest := room + ":" + a + ":" + b;
    FirstCut("meet", tenant + ":" + rest);
    FirstCut(tenant, rest);
    LastCut(room + ":" + a, b);
    LastCut(room, a);
  }

  lemma KeyIsNested(tenant: string, room: string, startedAt: int, finishedAt: int)
    ensures var a, b := Decimal(UnixOrZero(startedAt)), Decimal(UnixSeconds(finishedAt));
            && KeyFor(tenant, room, startedAt, finishedAt)
               == "meet" + ":" + (tenant + ":" + (room + ":" + a + ":" + b))
            && "meet:" <= KeyFor(tenant, room, startedAt, finishedAt)
  {}

  /** A printed key reads back as its tenant, room, start second and finish second: the room may
      contain colons, the tenant never does. */
  lemma KeyReadsBack(sep: char, tenant: string, room: string, startedAt: int, finishedAt: int)
    requires ValidTenant(sep, tenant)
    ensures ParseKey(KeyFor(tenant, room, startedAt, finishedAt))
         == KeyFields(tenant, room, UnixOrZero(startedAt), UnixSeconds(finishedAt))
    ensures "meet:" <= KeyFor(tenant, room, startedAt, finishedAt)
  {
    DecimalHasNoColon(UnixOrZero(startedAt));
    DecimalHasNoColon(UnixSeconds(finishedAt));
    assert ':' !in tenant;
    KeyIsNested(tenant, room, startedAt, finishedAt);
    KeyCuts(tenant, room, Decimal(UnixOrZero(startedAt)), Decimal(UnixSeconds(finishedAt)));
    DecimalReadsBack(UnixOrZero(startedAt));
    DecimalReadsBack(UnixSeconds(finishedAt));
  }

  /** So two printed keys are equal exactly when tenant, room, start second and finish second are:
      two lifetimes of one room share a key exactly when they start and finish in the same
      seconds. */
  lemma KeyDetermines(sep: char, t1: string, r1: string, s1: int, f1: int,
                      t2: string, r2: string, s2: int, f2: int)
    requires ValidTenant(sep, t1) && ValidTenant(sep, t2)
    ensures KeyFor(t1, r1, s1, f1) == KeyFor(t2, r2, s2, f2) <==>
            t1 == t2 && r1 == r2 && UnixOrZero(s1) == UnixOrZero(s2) && UnixSeconds(f1) == UnixSeconds(f2)
  {
    KeyReadsBack(sep, t1, r1, s1, f1);
    KeyReadsBack(sep, t2, r2, s2, f2);
  }
}
