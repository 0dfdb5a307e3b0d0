/** The text of an alert id, `<camera>:F<forklift>:P<person>:<ns>`, and how to read it back. */
module AlertId {
  import opened Wrappers

  function Digit(d: nat): char
    requires d < 10
  {
    "0123456789"[d]
  }

  function DigitValue(c: char): nat {
    if '0' <= c <= '9' then c as int - '0' as int else 0
  }

  function PrintNat(n: nat): string {
    if n < 10 then [Digit(n)] else PrintNat(n / 10) + [Digit(n % 10)]
  }

  /** A signed integer as an output stream prints it. */
  function PrintInt(n: int): string {
    if n < 0 then "-" + PrintNat(-n) else PrintNat(n)
  }

  function MakeAlertId(camera: string, forklift: int, person: int, ns: int): string {
    camera + (":" + ("F" + PrintInt(forklift))) + (":" + ("P" + PrintInt(person))) + (":" + PrintInt(ns))
  }

  lemma AlertIdText(camera: string, forklift: int, person: int, ns: int)
    ensures MakeAlertId(camera, forklift, person, ns)
            == camera + ":F" + PrintInt(forklift) + ":P" + PrintInt(person) + ":" + PrintInt(ns)
  {
    var f, p, t := PrintInt(forklift), PrintInt(person), PrintInt(ns);
    assert ":" + ("F" + f) == ":F" + f && ":" + ("P" + p) == ":P" + p;
    assert camera + (":F" + f) == camera + ":F" + f;
    assert camera + ":F" + f + (":P" + p) == camera + ":F" + f + ":P" + p;
    assert camera + ":F" + f + ":P" + p + (":" + t) == camera + ":F" + f + ":P" + p + ":" + t;
  }

  // ── Reading an id back, from its right end ──────────────────────────────────

  function ParseNat(s: string): nat {
    if s == "" then 0
    else
      10 * ParseNat(s[..|s| - 1]) + DigitValue(s[|s| - 1])
  }

  function ParseInt(s: string): int {
    if s != "" && s[0] == '-' then 0 - ParseNat(s[1..]) else ParseNat(s)
  }

  /** What is before and after the last colon. */
  function SplitAtLastColon(s: string): Option<(string, string)> {
    if s == "" then None
    else
      var init, c := s[..|s| - 1], s[|s| - 1];
      if c == ':' then Some((init, ""))
      else
        match SplitAtLastColon(init)
        case None => None
        case Some((before, after)) => Some((before, after + [c]))
  }

  datatype Parts = Parts(camera: string, forklift: int, person: int, ns: int)

  function ParseAlertId(id: string): Option<Parts> {
    match SplitAtLastColon(id)
    case None => None
    case Some((front, ns)) =>
      match SplitAtLastColon(front)
      case None => None
      case Some((front', person)) =>
        match SplitAtLastColon(front')
        case None => None
        case Some((camera, forklift)) =>
          if |person| >= 1 && person[0] == 'P' && |forklift| >= 1 && forklift[0] == 'F' then
            Some(Parts(camera, ParseInt(forklift[1..]), ParseInt(person[1..]), ParseInt(ns)))
          else None
  }

  ghost predicate AllDigits(s: string) {
    s != "" && forall i :: 0 <= i < |s| ==> '0' <= s[i] <= '9'
  }

  lemma DigitRoundTrip(d: nat)
    requires d < 10
    ensures '0' <= Digit(d) <= '9' && DigitValue(Digit(d)) == d
  {
  }

  lemma ParseNatAppend(s: string, c: char)
    ensures ParseNat(s + [c]) == 10 * ParseNat(s) + DigitValue(c)
  {
    assert (s + [c])[..|s|] == s;
  }

  lemma {:induction false} NatRoundTrip(n: nat)
    ensures AllDigits(PrintNat(n)) && ParseNat(PrintNat(n)) == n
  {
    DigitRoundTrip(n % 10);
    if n < 10 {
      ParseNatAppend("", Digit(n));
      assert "" + [Digit(n)] == PrintNat(n);
    } else {
      NatRoundTrip(n / 10);
      ParseNatAppend(PrintNat(n / 10), Digit(n % 10));
    }
  }

  lemma DigitsParse(s: string)
    requires AllDigits(s)
    ensures ':' !in s && ParseInt(s) == ParseNat(s)
  {
    assert '0' <= s[0];
  }

  lemma SignedParse(s: string)
    requires AllDigits(s)
    ensures ':' !in "-" + s && ParseInt("-" + s) == 0 - ParseNat(s)
  {
    DigitsParse(s);
    assert ("-" + s)[1..] == s;
  }

  lemma IntRoundTrip(n: int)
    ensures ':' !in PrintInt(n) && ParseInt(PrintInt(n)) == n
  {
    if n < 0 {
      NatRoundTrip(-n);
      SignedParse(PrintNat(-n));
    } else {
      NatRoundTrip(n);
      DigitsParse(PrintNat(n));
    }
  }

  lemma {:induction false} SplitJoins(before: string, after: string)
    requires ':' !in after
    ensures SplitAtLastColon(before + (":" + after)) == Some((before, after))
  {
    var s := before + (":" + after);
    if after == "" {
      assert s[..|s| - 1] == before;
    } else {
      var init := after[..|after| - 1];
      SplitJoins(before, init);
      assert s[..|s| - 1] == before + (":" + init);
      assert init + [after[|after| - 1]] == after;
    }
  }

  /** Three splits from the right take an id apart, whatever is in front. */
  lemma ThreeFields(camera: string, f: string, p: string, ns: string)
    requires ':' !in f && ':' !in p && ':' !in ns
    ensures ParseAlertId(camera + (":" + ("F" + f)) + (":" + ("P" + p)) + (":" + ns))
            == Some(Parts(camera, ParseInt(f), ParseInt(p), ParseInt(ns)))
  {
    var forklift, person := "F" + f, "P" + p;
    assert forklift[1..] == f && person[1..] == p;
    SplitJoins(camera + (":" + forklift) + (":" + person), ns);
    SplitJoins(camera + (":" + forklift), person);
    SplitJoins(camera, forklift);
  }

  /** An id can be read back whatever the camera is called, colons included. */
  lemma AlertIdRoundTrip(camera: string, forklift: int, person: int, ns: int)
    ensures ParseAlertId(MakeAlertId(camera, forklift, person, ns)) == Some(Parts(camera, forklift, person, ns))
  {
    IntRoundTrip(forklift);
    IntRoundTrip(person);
    IntRoundTrip(ns);
    ThreeFields(camera, PrintInt(forklift), PrintInt(person), PrintInt(ns));
  }

  lemma AlertIdIsInjective(a: Parts, b: Parts)
    requires MakeAlertId(a.camera, a.forklift, a.person, a.ns) == MakeAlertId(b.camera, b.forklift, b.person, b.ns)
    ensures a == b
  {
    AlertIdRoundTrip(a.camera, a.forklift, a.person, a.ns);
    AlertIdRoundTrip(b.camera, b.forklift, b.person, b.ns);
  }
}
