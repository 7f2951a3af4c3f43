/** Snapshot files are named after their state id. */
module FileNames {
  import opened Prelude

  const SUFFIX := "_state.bin"

  function Digit(d: nat): char
    requires d < 10
  {
    ('0' as int + d) as char
  }

  /** A number as it is displayed: no sign, no leading zero. */
  function Decimal(n: nat): (r: string)
    ensures r != "" && forall i :: 0 <= i < |r| ==> '0' <= r[i] <= '9'
  {
    if n < 10 then [Digit(n)] else Decimal(n / 10) + [Digit(n % 10)]
  }

  /** Reads digits from left to right, giving up on anything else and on numbers that do not fit 128 bits. */
  function ReadDigits(s: string): Option<nat> {
    if s == "" then Some(0)
    else match ReadDigits(s[..|s| - 1])
      case None => None
      case Some(v) =>
        var c := s[|s| - 1];
        if !('0' <= c <= '9') then None
        else if v * 10 + (c as int - '0' as int) >= U128 then None
        else Some(v * 10 + (c as int - '0' as int))
  }

  /** Parsing an unsigned number accepts one leading plus sign, and needs at least one digit. */
  function ParseU128(s: string): Option<nat> {
    var digits := if s != "" && s[0] == '+' then s[1..] else s;
    if digits == "" then None else ReadDigits(digits)
  }

  function ToFileName(id: nat): string {
    Decimal(id) + SUFFIX
  }

  function ExtractStateId(name: string): Option<nat> {
    if |SUFFIX| <= |name| && name[|name| - |SUFFIX|..] == SUFFIX then ParseU128(name[..|name| - |SUFFIX|]) else None
  }

  function Zeros(k: nat): (r: string)
    ensures |r| == k
  {
    if k == 0 then "" else Zeros(k - 1) + "0"
  }

  lemma {:induction false} ZerosFirst(k: nat)
    ensures Zeros(k) + "0" == "0" + Zeros(k)
  {
    if k > 0 {
      ZerosFirst(k - 1);
      assert "0" + Zeros(k - 1) + "0" == "0" + (Zeros(k - 1) + "0");
    }
  }

  lemma ReadSnoc(p: string, d: nat)
    requires d < 10
    ensures ReadDigits(p + [Digit(d)]) ==
      match ReadDigits(p)
      case None => None
      case Some(v) => if v * 10 + d < U128 then Some(v * 10 + d) else None
  {
    var s := p + [Digit(d)];
    assert s[..|s| - 1] == p;
  }

  lemma {:induction false} ReadZeros(k: nat)
    ensures ReadDigits(Zeros(k)) == Some(0)
  {
    if k > 0 {
      ReadZeros(k - 1);
      ReadSnoc(Zeros(k - 1), 0);
    }
  }

  lemma {:induction false} ReadDecimal(k: nat, id: nat)
    requires id < U128
    ensures ReadDigits(Zeros(k) + Decimal(id)) == Some(id)
    decreases id
  {
    hide ReadDigits;
    if id < 10 {
      ReadZeros(k);
      ReadSnoc(Zeros(k), id);
    } else {
      ReadDecimal(k, id / 10);
      ReadSnoc(Zeros(k) + Decimal(id / 10), id % 10);
      assert Zeros(k) + Decimal(id / 10) + [Digit(id % 10)] == Zeros(k) + Decimal(id);
    }
  }

  /** Whatever reads as a number is that number's display behind some zeros. */
  lemma {:induction false} ReadForm(s: string) returns (k: nat)
    requires s != "" && ReadDigits(s).Some?
    ensures ReadDigits(s).value < U128
    ensures s == Zeros(k) + Decimal(ReadDigits(s).value)
  {
    var p, c := s[..|s| - 1], s[|s| - 1];
    var d := c as int - '0' as int;
    assert s == p + [Digit(d)];
    if p == "" {
      k := 0;
      assert ReadDigits(s).value == d;
    } else {
      k := ReadForm(p);
      DecimalSnoc(k, ReadDigits(p).value, d);
      k := if ReadDigits(p).value == 0 then k + 1 else k;
    }
  }

  lemma DecimalSnoc(k: nat, w: nat, d: nat)
    requires d < 10
    ensures Zeros(k) + Decimal(w) + [Digit(d)] == Zeros(if w == 0 then k + 1 else k) + Decimal(w * 10 + d)
  {
    if w > 0 {
      assert (w * 10 + d) / 10 == w && (w * 10 + d) % 10 == d;
      assert Zeros(k) + Decimal(w) + [Digit(d)] == Zeros(k) + (Decimal(w) + [Digit(d)]);
    }
  }

  /** A file name that stands for an id: the generated one, up to a plus sign and leading zeros. */
  ghost predicate StandsFor(name: string, id: nat) {
    exists plus: bool, k: nat :: name == Spelled(plus, k, id)
  }

  function Spelled(plus: bool, k: nat, id: nat): string {
    (if plus then "+" else "") + (Zeros(k) + Decimal(id)) + SUFFIX
  }

  lemma SpelledIsExtracted(plus: bool, k: nat, id: nat)
    requires id < U128
    ensures ExtractStateId(Spelled(plus, k, id)) == Some(id)
  {
    var digits := Zeros(k) + Decimal(id);
    assert Spelled(plus, k, id)[|Spelled(plus, k, id)| - |SUFFIX|..] == SUFFIX;
    var name := Spelled(plus, k, id);
    var stem := name[..|name| - |SUFFIX|];
    assert stem == (if plus then "+" else "") + digits;
    assert digits[0] != '+' by {
      if k > 0 {
        ZerosFirst(k - 1);
      }
    }
    assert if plus then stem[0] == '+' && stem[1..] == digits else stem == digits;
    assert ParseU128(stem) == ReadDigits(digits);
    ReadDecimal(k, id);
  }

  /** Extraction succeeds on exactly the names that stand for a 128-bit id, and gives that id. */
  lemma ExtractedIffStandsFor(name: string, id: nat)
    ensures ExtractStateId(name) == Some(id) <==> id < U128 && StandsFor(name, id)
  {
    hide ReadDigits, Zeros, Decimal;
    if ExtractStateId(name) == Some(id) {
      var stem := name[..|name| - |SUFFIX|];
      var plus := stem != "" && stem[0] == '+';
      var digits := if plus then stem[1..] else stem;
      var k := ReadForm(digits);
      assert name == stem + SUFFIX;
      assert name == Spelled(plus, k, id);
    }
    if id < U128 && StandsFor(name, id) {
      var plus, k :| name == Spelled(plus, k, id);
      SpelledIsExtracted(plus, k, id);
    }
  }

  /** Every id is recovered from its own file name, so no two ids share a file name. */
  lemma FileNameRoundTrip(id: nat, other: nat)
    requires id < U128 && other < U128
    ensures ExtractStateId(ToFileName(id)) == Some(id)
    ensures ToFileName(id) == ToFileName(other) ==> id == other
  {
    SpelledIsExtracted(false, 0, id);
    SpelledIsExtracted(false, 0, other);
    assert Spelled(false, 0, id) == ToFileName(id) && Spelled(false, 0, other) == ToFileName(other);
  }
}
