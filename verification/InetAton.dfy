/**
 * source/mist_port/inet_aton.c: the parser of IPv4 address texts.
 *
 * `InetAton` is the parsing loop. `Parse` says what it computes, and
 * `AcceptsExactlyTheGrammar` says what that means: a text is accepted exactly when
 * it can be written as an `AddressText` whose numbers are in range, and its value is
 * then the weighted sum of those numbers.
 */
module InetAton {
  import opened Bits
  import opened CText

  /** The end of the string, its NUL, or white space. */
  predicate EndsAddress(rest: string) {
    rest == "" || rest[0] == '\0' || IsSpace(rest[0])
  }

  /** One number read at position c: followed by a dot, the last one, or unusable. */
  datatype Number = More(l: nat, next: nat) | Last(l: nat) | Unusable

  function ReadNumber(cp: string, c: nat): (r: Number)
    requires c <= |cp|
    ensures r.More? ==> c < r.next <= |cp|
    ensures r != Unusable ==> r.l < ULONG_MAX
  {
    var number := Strtoul(cp[c..]);
    var end := c + number.end;
    if number.value == ULONG_MAX || number.end == 0 then Unusable
    else if end < |cp| && cp[end] == '.' then More(number.value, end + 1)
    else if EndsAddress(cp[end..]) then Last(number.value)
    else Unusable
  }

  /** The numbers of cp from position c up to the end or white space; None when one is unusable. */
  function NumbersFrom(cp: string, c: nat): (r: Option<seq<nat>>)
    requires c <= |cp|
    ensures r.Some? ==> |r.value| > 0
    decreases |cp| - c
  {
    match ReadNumber(cp, c)
    case Unusable => None
    case Last(l) => Some([l])
    case More(l, next) => Continue([l], NumbersFrom(cp, next))
  }

  /** The numbers `done` followed by those still to come. */
  function Continue(done: seq<nat>, rest: Option<seq<nat>>): Option<seq<nat>> {
    if rest.None? then None else Some(done + rest.value)
  }

  function Numbers(s: string): Option<seq<nat>> {
    NumbersFrom(s, 0)
  }

  /** Every number but the last is one byte; the last fills the remaining bytes. */
  predicate InRange(ns: seq<nat>) {
    && 1 <= |ns| <= 4
    && (forall k | 0 <= k < |ns| - 1 :: ns[k] < Weight(1))
    && ns[|ns| - 1] < Weight(5 - |ns|)
  }

  /** 256 to the power k. */
  function Weight(k: nat): nat {
    if k == 0 then 1 else 256 * Weight(k - 1)
  }

  /** The sum of all numbers but the last at their byte positions, from the most significant byte down. */
  function LeadingBytes(ns: seq<nat>, k: nat): nat
    requires k <= |ns| <= 4
  {
    if k == 0 then 0 else LeadingBytes(ns, k - 1) + ns[k - 1] * Weight(4 - k)
  }

  function WeightedSum(ns: seq<nat>): nat
    requires 1 <= |ns| <= 4
  {
    LeadingBytes(ns, |ns| - 1) + ns[|ns| - 1]
  }

  function Parse(s: string): Option<nat> {
    var ns := Numbers(s);
    if ns.Some? && InRange(ns.value) then Some(WeightedSum(ns.value)) else None
  }

  lemma Weights()
    ensures Weight(1) == 0x100 && Weight(2) == 0x1_0000 && Weight(3) == 0x100_0000 && Weight(4) == WORD
  {
    assert Weight(2) == 256 * Weight(1);
    assert Weight(4) == 256 * Weight(3);
  }

  lemma SumIsWord(ns: seq<nat>)
    requires InRange(ns)
    ensures WeightedSum(ns) < WORD
    ensures |ns| == 1 ==> WeightedSum(ns) == ns[0]
    ensures |ns| == 2 ==> WeightedSum(ns) == ns[0] * 0x100_0000 + ns[1]
    ensures |ns| == 3 ==> WeightedSum(ns) == ns[0] * 0x100_0000 + ns[1] * 0x1_0000 + ns[2]
    ensures |ns| == 4 ==> WeightedSum(ns) == ns[0] * 0x100_0000 + ns[1] * 0x1_0000 + ns[2] * 0x100 + ns[3]
  {
    Weights();
    assert LeadingBytes(ns, 0) == 0;
    if |ns| > 1 { assert LeadingBytes(ns, 1) == ns[0] * 0x100_0000; }
    if |ns| > 2 { assert LeadingBytes(ns, 2) == LeadingBytes(ns, 1) + ns[1] * 0x1_0000; }
    if |ns| > 3 { assert LeadingBytes(ns, 3) == LeadingBytes(ns, 2) + ns[2] * 0x100; }
  }

  lemma RangeByCount(ns: seq<nat>)
    requires |ns| > 0 && ns[|ns| - 1] < WORD
    ensures |ns| == 1 ==> InRange(ns)
    ensures |ns| == 2 ==> (InRange(ns) <==> ns[0] <= 0xff && ns[1] <= 0xff_ffff)
    ensures |ns| == 3 ==> (InRange(ns) <==> ns[0] <= 0xff && ns[1] <= 0xff && ns[2] <= 0xffff)
    ensures |ns| == 4 ==> (InRange(ns) <==> ns[0] <= 0xff && ns[1] <= 0xff && ns[2] <= 0xff && ns[3] <= 0xff)
  {
    Weights();
  }

  /** struct in_addr: s_addr as the machine word whose bytes lie in memory. */
  class InAddr {
    var sAddr: nat

    constructor ()
      ensures sAddr == 0
    {
      sAddr := 0;
    }
  }

  lemma ContinueNothing(r: Option<seq<nat>>)
    ensures Continue([], r) == r
  {
    assert r.Some? ==> [] + r.value == r.value;
  }

  lemma ContinueTwice(done: seq<nat>, l: nat, r: Option<seq<nat>>)
    ensures Continue(done, Continue([l], r)) == Continue(done + [l], r)
  {
    assert r.Some? ==> done + ([l] + r.value) == done + [l] + r.value;
  }

  /** A round of the loop at position c, after the numbers `done`. */
  lemma {:induction false} OneRound(cp: string, c: nat, done: seq<nat>)
    requires c <= |cp|
    ensures Continue(done, NumbersFrom(cp, c)) ==
            match ReadNumber(cp, c)
            case Unusable => None
            case Last(l) => Some(done + [l])
            case More(l, next) => Continue(done + [l], NumbersFrom(cp, next))
  {
    var r := ReadNumber(cp, c);
    if r.More? {
      ContinueTwice(done, r.l, NumbersFrom(cp, r.next));
    }
  }

  /** The range checks and the packing of n + 1 parts. */
  method Concoct(parts: array<nat>, n: nat) returns (ok: bool, val: nat)
    requires parts.Length == 4 && n <= 3 && parts[n] < ULONG_MAX
    ensures ok <==> InRange(parts[..n + 1])
    ensures ok ==> val == WeightedSum(parts[..n + 1])
  {
    ghost var ns := parts[..n + 1];
    val := parts[n];
    RangeByCount(ns);
    match n {
      case 0 =>
      case 1 =>
        if val > 0xff_ffff || parts[0] > 0xff {
          return false, val;
        }
        Pack2(parts[0], val);
        val := Or(val, Shl(parts[0], 24));
      case 2 =>
        if val > 0xffff || parts[0] > 0xff || parts[1] > 0xff {
          return false, val;
        }
        Pack3(parts[0], parts[1], val);
        val := Or(val, Or(Shl(parts[0], 24), Shl(parts[1], 16)));
      case 3 =>
        if val > 0xff || parts[0] > 0xff || parts[1] > 0xff || parts[2] > 0xff {
          return false, val;
        }
        Pack4(parts[0], parts[1], parts[2], val);
        val := Or(val, Or(Or(Shl(parts[0], 24), Shl(parts[1], 16)), Shl(parts[2], 8)));
    }
    ok := true;
    SumIsWord(ns);
  }

  lemma PrefixAfterUpdate(was: seq<nat>, now: seq<nat>, n: nat, l: nat)
    requires n < |was| && now == was[n := l]
    ensures now[..n + 1] == was[..n] + [l]
  {
  }

  /** One strtoul call and the look at the character it stopped at. */
  method GrabNumber(cp: string, c: nat) returns (r: Number)
    requires c <= |cp|
    ensures r == ReadNumber(cp, c)
  {
    hide Strtoul;
    var conversion := Strtoul(cp[c..]);
    var l, endptr := conversion.value, c + conversion.end;
    if l == ULONG_MAX || (l == 0 && endptr == c) {
      return Unusable;
    }
    if endptr == c {
      return Unusable;
    }
    if endptr < |cp| && cp[endptr] == '.' {
      return More(l, endptr + 1);
    } else if endptr == |cp| || cp[endptr] == '\0' {
      return Last(l);
    } else if IsSpace(cp[endptr]) {
      return Last(l);
    } else {
      return Unusable;
    }
  }

  /** The parsing loop: fills parts[0] to parts[n] with the numbers of the text. */
  method ReadParts(cp: string, parts: array<nat>) returns (ok: bool, n: nat)
    requires parts.Length == 4
    modifies parts
    ensures ok ==> n <= 3 && Numbers(cp) == Some(parts[..n + 1]) && parts[n] < ULONG_MAX
    ensures !ok ==> Numbers(cp).None? || |Numbers(cp).value| > 4
  {
    hide ReadNumber;
    var c := 0;
    n := 0;
    var gotend := false;
    ghost var read: seq<nat> := [];
    ContinueNothing(Numbers(cp));
    while !gotend
      invariant 0 <= c <= |cp| && 0 <= n <= 3
      invariant |read| == (if gotend then n + 1 else n) && parts[..|read|] == read
      invariant !gotend ==> Numbers(cp) == Continue(read, NumbersFrom(cp, c))
      invariant gotend ==> Numbers(cp) == Some(read) && read[n] < ULONG_MAX
      decreases !gotend, |cp| - c
    {
      OneRound(cp, c, read);
      var r := GrabNumber(cp, c);
      if r == Unusable {
        return false, n;
      }
      ghost var was := parts[..];
      parts[n] := r.l;
      PrefixAfterUpdate(was, parts[..], n, r.l);
      read := read + [r.l];
      match r {
        case More(_, next) =>
          if n == 3 {
            return false, n;
          }
          n := n + 1;
          c := next;
        case Last(_) =>
          gotend := true;
      }
    }
    ok := true;
  }

  /** inet_aton(cp, addr) on a machine of the given byte order; addr may be null. */
  method InetAton(e: Endian, cp: string, addr: InAddr?) returns (ok: bool)
    modifies addr
    ensures ok <==> Parse(cp).Some?
    ensures ok && addr != null ==> Memory(e, addr.sAddr) == NetworkBytes(Parse(cp).value)
    ensures !ok && addr != null ==> addr.sAddr == old(addr.sAddr)
  {
    var parts := new nat[4];
    var n, val;
    ok, n := ReadParts(cp, parts);
    if !ok {
      return;
    }
    ok, val := Concoct(parts, n);
    if ok && addr != null {
      SumIsWord(parts[..n + 1]);
      HtonlMemory(e, val);
      addr.sAddr := Htonl(e, val);
    }
  }
}
