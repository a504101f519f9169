/** User and channel identifiers: a prefix and a zero-padded decimal index. */
module Ids {

  const DIGITS: seq<char> := "0123456789"

  /** Decimal notation, as `%d` prints a natural number. */
  function Decimal(n: nat): string {
    if n < 10 then [DIGITS[n]] else Decimal(n / 10) + [DIGITS[n % 10]]
  }

  function Zeros(k: nat): string { seq(k, _ => '0') }

  /** `%07d`. */
  function Padded(n: nat): string {
    var d := Decimal(n);
    if |d| < 7 then Zeros(7 - |d|) + d else d
  }

  function GenUid(prefix: string, index: nat): string { prefix + Padded(index) }

  function GenChannelId(prefix: string, task: nat, index: nat): string {
    prefix + Decimal(task) + ":" + Padded(index)
  }

  predicate IsDigit(c: char) { c in DIGITS }

  function DigitValue(c: char): nat
    requires IsDigit(c)
  {
    c as int - '0' as int
  }

  /** The number a string of digits denotes. */
  function Read(s: string): nat
    requires forall c :: c in s ==> IsDigit(c)
  {
    if s == [] then 0 else 10 * Read(s[..|s| - 1]) + DigitValue(s[|s| - 1])
  }

  lemma {:induction false} DecimalReads(n: nat)
    ensures |Decimal(n)| >= 1 && (forall c :: c in Decimal(n) ==> IsDigit(c))
    ensures Read(Decimal(n)) == n
  {
    var s := Decimal(n);
    if n >= 10 {
      DecimalReads(n / 10);
      assert s[..|s| - 1] == Decimal(n / 10);
    } else {
      assert s[..|s| - 1] == [];
    }
  }

  lemma {:induction false} LeadingZeros(k: nat, s: string)
    requires forall c :: c in s ==> IsDigit(c)
    ensures forall c :: c in Zeros(k) + s ==> IsDigit(c)
    ensures Read(Zeros(k) + s) == Read(s)
  {
    var t := Zeros(k) + s;
    if s != [] {
      assert t[..|t| - 1] == Zeros(k) + s[..|s| - 1];
      LeadingZeros(k, s[..|s| - 1]);
    } else if k > 0 {
      assert t[..|t| - 1] == Zeros(k - 1) + [];
      LeadingZeros(k - 1, s);
    }
  }

  /** Padding does not change the number, so the number can be read back from it. */
  lemma PaddedReads(n: nat)
    ensures |Padded(n)| >= 7 && (forall c :: c in Padded(n) ==> IsDigit(c))
    ensures Read(Padded(n)) == n
  {
    DecimalReads(n);
    if |Decimal(n)| < 7 {
      LeadingZeros(7 - |Decimal(n)|, Decimal(n));
    }
  }

  /** No superfluous zeros in front. */
  predicate Plain(s: string) { |s| >= 1 && (s[0] == '0' ==> |s| == 1) }

  lemma {:induction false} DecimalPlain(n: nat)
    ensures Plain(Decimal(n)) && (n > 0 ==> Decimal(n)[0] != '0')
  {
    if n >= 10 {
      DecimalPlain(n / 10);
    }
  }

  /** A uid is the prefix and its index: seven digits, or as many as it takes without a zero in front. */
  lemma GenUidShape(prefix: string, index: nat)
    ensures var uid := GenUid(prefix, index);
            && prefix <= uid && IsPadded(uid[|prefix|..], index)
  {
    PaddedShape(index);
    assert GenUid(prefix, index)[|prefix|..] == Padded(index);
  }

  /** `s` denotes `n` with at least seven digits, and with more only if it takes them. */
  predicate IsPadded(s: string, n: nat) {
    && (forall c :: c in s ==> IsDigit(c)) && Read(s) == n
    && |s| >= 7 && (|s| > 7 ==> s[0] != '0')
  }

  lemma PaddedShape(n: nat)
    ensures IsPadded(Padded(n), n)
  {
    PaddedReads(n);
    DecimalPlain(n);
  }

  /** A channel id is the prefix, the number of its task as it is, a colon, and its padded index. */
  lemma GenChannelIdShape(prefix: string, task: nat, index: nat)
    ensures exists d: string, p: string ::
              && GenChannelId(prefix, task, index) == prefix + d + ":" + p
              && (forall c :: c in d ==> IsDigit(c)) && Read(d) == task && Plain(d) && IsPadded(p, index)
  {
    DecimalReads(task);
    DecimalPlain(task);
    PaddedShape(index);
    assert GenChannelId(prefix, task, index) == prefix + Decimal(task) + ":" + Padded(index);
  }

  /** Two users of a run never share a uid, whatever their indices. */
  lemma GenUidInjective(prefix: string, a: nat, b: nat)
    requires GenUid(prefix, a) == GenUid(prefix, b)
    ensures a == b
  {
    PaddedReads(a);
    PaddedReads(b);
    assert GenUid(prefix, a)[|prefix|..] == Padded(a);
    assert GenUid(prefix, b)[|prefix|..] == Padded(b);
  }

  /** Two channels of a run never share an id: the colon separates the two numbers. */
  lemma GenChannelIdInjective(prefix: string, task: nat, a: nat, task': nat, b: nat)
    requires GenChannelId(prefix, task, a) == GenChannelId(prefix, task', b)
    ensures task == task' && a == b
  {
    var p, d, d' := |prefix|, Decimal(task), Decimal(task');
    var s, s' := d + ":" + Padded(a), d' + ":" + Padded(b);
    assert GenChannelId(prefix, task, a)[p..] == s;
    assert GenChannelId(prefix, task', b)[p..] == s';
    DecimalReads(task);
    DecimalReads(task');
    FirstColon(d, Padded(a), d', Padded(b));
    PaddedReads(a);
    PaddedReads(b);
  }

  lemma FirstColon(d: string, x: string, d': string, x': string)
    requires d + ":" + x == d' + ":" + x'
    requires (forall c :: c in d ==> IsDigit(c)) && (forall c :: c in d' ==> IsDigit(c))
    ensures d == d' && x == x'
  {
    var s, s' := d + ":" + x, d' + ":" + x';
    assert s[|d|] == ':' == s'[|d'|];
    assert !IsDigit(':');
    assert forall i :: 0 <= i < |d| ==> s[i] == d[i] && IsDigit(d[i]);
    assert forall i :: 0 <= i < |d'| ==> s'[i] == d'[i] && IsDigit(d'[i]);
    assert |d| == |d'|;
    assert s[..|d|] == d && s'[..|d'|] == d';
    assert s[|d| + 1..] == x && s'[|d'| + 1..] == x';
  }

  /** The uids of indices `from` up to but not including `to`. */
  function Uids(prefix: string, from: nat, to: nat): seq<string> {
    if to <= from then [] else Uids(prefix, from, to - 1) + [GenUid(prefix, to - 1)]
  }

  lemma {:induction false} UidsAt(prefix: string, from: nat, to: nat)
    ensures |Uids(prefix, from, to)| == if to <= from then 0 else to - from
    ensures forall k :: 0 <= k < |Uids(prefix, from, to)| ==> Uids(prefix, from, to)[k] == GenUid(prefix, from + k)
  {
    hide GenUid;
    if to > from {
      UidsAt(prefix, from, to - 1);
    }
  }

  lemma UidsSnoc(prefix: string, n: nat)
    ensures Uids(prefix, 0, n + 1) == Uids(prefix, 0, n) + [GenUid(prefix, n)]
  {
    hide GenUid;
  }

  ghost predicate Distinct<T>(s: seq<T>) { forall i, j :: 0 <= i < j < |s| ==> s[i] != s[j] }

  lemma UidsDistinct(prefix: string, from: nat, to: nat)
    ensures Distinct(Uids(prefix, from, to))
  {
    UidsAt(prefix, from, to);
    hide Uids, GenUid;
    var s := Uids(prefix, from, to);
    forall i, j | 0 <= i < j < |s| ensures s[i] != s[j] {
      if s[i] == s[j] { GenUidInjective(prefix, from + i, from + j); }
    }
  }
}
