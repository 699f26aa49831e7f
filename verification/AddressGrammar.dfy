/**
 * The notations the address parser accepts, as a grammar over concrete syntax
 * trees, and the proof that the parser accepts exactly those.
 */
module AddressGrammar {
  import opened CText
  import opened InetAton

  /** Numerals separated by dots, and what follows them: nothing, a NUL or white space, then anything. */
  datatype AddressText = AddressText(parts: seq<Numeral>, tail: string) {
    predicate WellFormed() {
      && parts != []
      && (forall k | 0 <= k < |parts| :: parts[k].WellFormed())
      && EndsAddress(tail)
    }

    function Text(): string
      requires parts != []
      decreases |parts|
    {
      if |parts| == 1 then parts[0].Text() + tail
      else parts[0].Text() + ("." + Rest().Text())
    }

    function Values(): (vs: seq<nat>)
      ensures |vs| == |parts|
    {
      seq(|parts|, k requires 0 <= k < |parts| => parts[k].Value())
    }

    /** Each number fits its place, and none is strtoul's overflow value. */
    predicate Accepted() {
      InRange(Values()) && ULONG_MAX !in Values()
    }

    function Value(): nat
      requires Accepted()
    {
      WeightedSum(Values())
    }

    function Rest(): AddressText
      requires parts != []
    {
      AddressText(parts[1..], tail)
    }
  }

  lemma {:induction false} ReadNumberOfText(cp: string, pre: string, m: Numeral, rest: string)
    requires cp == pre + (m.Text() + rest)
    requires m.WellFormed() && CannotContinue(rest)
    ensures ReadNumber(cp, |pre|) ==
            if m.Value() == ULONG_MAX then Unusable
            else if rest != "" && rest[0] == '.' then More(m.Value(), |pre| + |m.Text()| + 1)
            else if EndsAddress(rest) then Last(m.Value())
            else Unusable
  {
    hide Strtoul;
    StrtoulReadsNumeral(m, rest);
    assert cp[|pre|..] == m.Text() + rest;
    assert cp[|pre| + |m.Text()|..] == rest;
    assert rest != "" ==> cp[|pre| + |m.Text()|] == rest[0];
  }

  lemma {:induction false} FirstValue(a: AddressText)
    requires a.parts != []
    ensures a.Values() == [a.parts[0].Value()] + a.Rest().Values()
    ensures ULONG_MAX in a.Values() <==> a.parts[0].Value() == ULONG_MAX || ULONG_MAX in a.Rest().Values()
  {
    assert ULONG_MAX in a.Rest().Values() ==> ULONG_MAX in [a.parts[0].Value()] + a.Rest().Values();
  }

  lemma {:induction false} Regroup(pre: string, text: string, rest: string)
    ensures pre + (text + ("." + rest)) == (pre + text + ".") + rest
  {
  }

  /** Reading a well-formed text finds exactly its numbers. */
  lemma {:induction false} NumbersOfText(cp: string, pre: string, a: AddressText)
    requires a.WellFormed() && cp == pre + a.Text()
    ensures NumbersFrom(cp, |pre|) == if ULONG_MAX in a.Values() then None else Some(a.Values())
    decreases |a.parts|
  {
    hide ReadNumber;
    var m := a.parts[0];
    FirstValue(a);
    if |a.parts| == 1 {
      assert a.Values() == [m.Value()];
      ReadNumberOfText(cp, pre, m, a.tail);
    } else {
      var rest := a.Rest().Text();
      ReadNumberOfText(cp, pre, m, "." + rest);
      Regroup(pre, m.Text(), rest);
      NumbersOfText(cp, pre + m.Text() + ".", a.Rest());
    }
  }

  lemma {:induction false} SplitAt(cp: string, c: nat, n: nat)
    requires c + n <= |cp|
    ensures cp[c..] == cp[c..][..n] + cp[c + n..]
    ensures c + n < |cp| ==> cp[c + n..] == [cp[c + n]] + cp[c + n + 1..]
  {
  }

  lemma {:induction false} TextOfNumber(cp: string, c: nat) returns (m: Numeral, rest: string)
    requires c <= |cp| && ReadNumber(cp, c) != Unusable
    ensures m.WellFormed() && m.Value() == ReadNumber(cp, c).l
    ensures cp[c..] == m.Text() + rest
    ensures match ReadNumber(cp, c)
            case More(_, next) => rest == "." + cp[next..]
            case Last(_) => EndsAddress(rest)
            case Unusable => true
  {
    hide Strtoul;
    var n := Strtoul(cp[c..]).end;
    m := StrtoulReadsOnlyNumerals(cp[c..]);
    rest := cp[c + n..];
    SplitAt(cp, c, n);
  }

  lemma {:induction false} Prepend(m: Numeral, b: AddressText) returns (a: AddressText)
    requires m.WellFormed() && b.WellFormed()
    ensures a.WellFormed() && a.Text() == m.Text() + ("." + b.Text())
    ensures a.parts == [m] + b.parts && a.Values() == [m.Value()] + b.Values()
  {
    a := AddressText([m] + b.parts, b.tail);
    assert a.Rest() == b;
    FirstValue(a);
  }

  /** Whatever numbers are read, some well-formed text spells them. */
  lemma {:induction false} TextOfNumbers(cp: string, c: nat) returns (a: AddressText)
    requires c <= |cp| && NumbersFrom(cp, c).Some?
    ensures a.WellFormed() && a.Text() == cp[c..]
    ensures a.Values() == NumbersFrom(cp, c).value && ULONG_MAX !in a.Values()
    decreases |cp| - c
  {
    hide ReadNumber;
    var m, rest := TextOfNumber(cp, c);
    match ReadNumber(cp, c) {
      case Last(l) =>
        a := AddressText([m], rest);
        assert a.Values() == [l];
      case More(l, next) =>
        var b := TextOfNumbers(cp, next);
        a := Prepend(m, b);
    }
  }

  /** A text is accepted with value v exactly when it is an accepted address text of that value. */
  lemma AcceptsExactlyTheGrammar(s: string, v: nat)
    ensures Parse(s) == Some(v) <==>
            exists a: AddressText :: a.WellFormed() && a.Text() == s && a.Accepted() && a.Value() == v
  {
    if Parse(s) == Some(v) {
      var a := TextOfNumbers(s, 0);
      assert a.WellFormed() && a.Text() == s && a.Accepted() && a.Value() == v;
    }
    forall a: AddressText | a.WellFormed() && a.Text() == s && a.Accepted() && a.Value() == v
      ensures Parse(s) == Some(v)
    {
      NumbersOfText(s, "", a);
    }
  }
}
