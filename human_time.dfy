/** `human_time(seconds, granularity)`: a duration written with the largest
    calendar units first ("1 day, 1 hour"), used to report elapsed run time.

    The decomposition walks the fixed unit table from years down to seconds,
    takes `seconds // count` of each unit (Python's floor division, which is
    Dafny's `/` for a positive divisor), drops units whose value is zero and
    keeps only the first `granularity` parts. */
module HumanTime {
  import opened Base

  type Positive = n: int | n > 0 witness 1

  /** The number of units in the table. */
  const Units := 7

  /** An index into the unit table, largest unit first. */
  type Unit = u: int | 0 <= u < Units

  /** The unit table: a month is 30 days and a year 360. */
  function Name(u: Unit): string
  {
    match u
    case 0 => "years"
    case 1 => "months"
    case 2 => "weeks"
    case 3 => "days"
    case 4 => "hours"
    case 5 => "minutes"
    case 6 => "seconds"
  }

  function Count(u: Unit): Positive
  {
    match u
    case 0 => 31104000
    case 1 => 2592000
    case 2 => 604800
    case 3 => 86400
    case 4 => 3600
    case 5 => 60
    case 6 => 1
  }

  /** `value` of unit `unit`. */
  datatype Part = Part(value: int, unit: Unit)

  /** `seconds // Count(u)`, written per unit so that every division has a
      constant divisor. */
  function Quot(seconds: int, u: Unit): int
  {
    match u
    case 0 => seconds / 31104000
    case 1 => seconds / 2592000
    case 2 => seconds / 604800
    case 3 => seconds / 86400
    case 4 => seconds / 3600
    case 5 => seconds / 60
    case 6 => seconds
  }

  /** What is left of `seconds` once the whole units `u` are taken away. */
  function Rem(seconds: int, u: Unit): int
  {
    match u
    case 0 => seconds % 31104000
    case 1 => seconds % 2592000
    case 2 => seconds % 604800
    case 3 => seconds % 86400
    case 4 => seconds % 3600
    case 5 => seconds % 60
    case 6 => 0
  }

  /** `Quot` and `Rem` are Python's `//` and `%` by the unit's length, and the
      remainder lies in `[0, Count(u))`. */
  lemma TakeUnits(seconds: int, u: Unit)
    ensures Quot(seconds, u) == seconds / Count(u)
    ensures Rem(seconds, u) == seconds % Count(u)
    ensures 0 <= Rem(seconds, u) < Count(u)
  {
    match u
    case 0 =>
    case 1 =>
    case 2 =>
    case 3 =>
    case 4 =>
    case 5 =>
    case 6 =>
  }

  /** The non-zero parts of `seconds`, taking the units from `u` on: every part
      is a non-zero value of a unit from `u` on, the units strictly descend in
      size, and there are at most as many parts as units left. */
  function Parts(seconds: int, u: nat): (ps: seq<Part>)
    ensures u <= Units ==> |ps| <= Units - u
    ensures forall k | 0 <= k < |ps| :: u <= ps[k].unit && ps[k].value != 0
    ensures forall k | 0 < k < |ps| :: ps[k - 1].unit < ps[k].unit
    decreases Units - u
  {
    if u >= Units then []
    else if Quot(seconds, u) != 0 then [Part(Quot(seconds, u), u)] + Parts(Rem(seconds, u), u + 1)
    else Parts(seconds, u + 1)
  }

  /** The seconds in one part, written per unit so that every product has a
      constant factor. */
  function Seconds(p: Part): (r: int)
    ensures r == p.value * Count(p.unit)
  {
    match p.unit
    case 0 => p.value * 31104000
    case 1 => p.value * 2592000
    case 2 => p.value * 604800
    case 3 => p.value * 86400
    case 4 => p.value * 3600
    case 5 => p.value * 60
    case 6 => p.value
  }

  /** What a list of parts adds up to, in seconds. */
  function Total(ps: seq<Part>): int
  {
    if ps == [] then 0 else Seconds(ps[0]) + Total(ps[1..])
  }

  /** The unit's name, singular (trailing `s` stripped) when the value is 1. */
  function UnitName(p: Part): string
  {
    if p.value == 1 then RStrip(Name(p.unit), 's') else Name(p.unit)
  }

  /** `"{} {}".format(value, name)` */
  function Render(p: Part): string
  {
    IntToString(p.value) + " " + UnitName(p)
  }

  function RenderAll(ps: seq<Part>): seq<string>
  {
    if ps == [] then [] else [Render(ps[0])] + RenderAll(ps[1..])
  }

  /** The parts give back the whole duration, for any integer input. */
  lemma {:induction false} PartsAddUp(seconds: int, u: nat)
    requires u < Units
    ensures Total(Parts(seconds, u)) == seconds
    decreases Units - u
  {
    TakeUnits(seconds, u);
    if u == Units - 1 {
      assert Parts(Rem(seconds, u), u + 1) == [];
    } else if Quot(seconds, u) != 0 {
      PartsAddUp(Rem(seconds, u), u + 1);
      assert Parts(seconds, u)[1..] == Parts(Rem(seconds, u), u + 1);
    } else {
      PartsAddUp(seconds, u + 1);
    }
  }

  /** Every part is larger than all the parts after it together: the parts
      after it add up to a non-negative amount below one of its unit. */
  predicate Canonical(ps: seq<Part>)
  {
    ps != [] ==> 0 <= Total(ps[1..]) < Count(ps[0].unit) && Canonical(ps[1..])
  }

  /** The decomposition is canonical. */
  lemma {:induction false} PartsCanonical(seconds: int, u: nat)
    ensures Canonical(Parts(seconds, u))
    decreases Units - u
  {
    if u < Units {
      if Quot(seconds, u) == 0 {
        SkipUnit(seconds, u);
        PartsCanonical(seconds, u + 1);
      } else {
        RemainderAfterFirst(seconds, u);
        PartsCanonical(Rem(seconds, u), u + 1);
        assert Parts(seconds, u)[1..] == Parts(Rem(seconds, u), u + 1);
      }
    }
  }

  lemma {:induction false} CanonicalAt(ps: seq<Part>, k: nat)
    requires Canonical(ps) && k < |ps|
    ensures 0 <= Total(ps[k + 1..]) < Count(ps[k].unit)
  {
    if k > 0 {
      CanonicalAt(ps[1..], k - 1);
      assert ps[1..][k..] == ps[k + 1..];
    }
  }

  /** After a unit is taken, what remains is non-negative and smaller than that
      unit: the parts after part `k` add up to less than one of part `k`'s unit. */
  lemma RemainderBelowUnit(seconds: int, u: nat, k: nat)
    requires k < |Parts(seconds, u)|
    ensures 0 <= Total(Parts(seconds, u)[k + 1..]) < Count(Parts(seconds, u)[k].unit)
  {
    PartsCanonical(seconds, u);
    CanonicalAt(Parts(seconds, u), k);
  }

  /** A unit of which `seconds` holds none contributes no part. */
  lemma SkipUnit(seconds: int, u: Unit)
    requires Quot(seconds, u) == 0
    ensures Parts(seconds, u) == Parts(seconds, u + 1)
  {
  }

  lemma RemainderAfterFirst(seconds: int, u: Unit)
    requires Quot(seconds, u) != 0
    ensures 0 < |Parts(seconds, u)|
    ensures 0 <= Total(Parts(seconds, u)[1..]) < Count(Parts(seconds, u)[0].unit)
  {
    var tail := Parts(Rem(seconds, u), u + 1);
    assert Parts(seconds, u)[1..] == tail;
    TakeUnits(seconds, u);
    if u + 1 < Units {
      PartsAddUp(Rem(seconds, u), u + 1);
    }
  }

  /** Zero seconds has no parts. */
  lemma {:induction false} ZeroHasNoParts(u: nat)
    ensures Parts(0, u) == []
    decreases Units - u
  {
    if u < Units {
      ZeroHasNoParts(u + 1);
    }
  }

  /** The parts that are shown: the first `granularity` ones. */
  function Shown(seconds: int, granularity: int): seq<string>
  {
    PrefixSlice(RenderAll(Parts(seconds, 0)), granularity)
  }

  lemma {:induction false} RenderAllLength(ps: seq<Part>)
    ensures |RenderAll(ps)| == |ps|
  {
    if ps != [] {
      RenderAllLength(ps[1..]);
    }
  }

  lemma {:induction false} RenderAllAt(ps: seq<Part>, k: nat)
    requires k < |ps|
    ensures |RenderAll(ps)| == |ps| && RenderAll(ps)[k] == Render(ps[k])
  {
    RenderAllLength(ps);
    if k > 0 {
      RenderAllAt(ps[1..], k - 1);
    }
  }

  /** What is shown is at most `granularity` parts (none for a negative count
      beyond the number of parts), and they are the renderings of the largest
      non-zero units, in order. */
  lemma ShownIsLargestUnits(seconds: int, granularity: int)
    requires granularity >= 0
    ensures var ps := Parts(seconds, 0);
      var shown := Shown(seconds, granularity);
      && |shown| == (if granularity < |ps| then granularity else |ps|)
      && forall k | 0 <= k < |shown| :: shown[k] == Render(ps[k])
  {
    var ps := Parts(seconds, 0);
    RenderAllLength(ps);
    forall k | 0 <= k < |Shown(seconds, granularity)|
      ensures Shown(seconds, granularity)[k] == Render(ps[k])
    {
      RenderAllAt(ps, k);
    }
  }

  /** Every unit name ends in a single `s`, so a value of 1 is written with the
      singular name. */
  lemma SingularName(u: Unit)
    ensures var name := Name(u);
      |name| > 1 && name[|name| - 1] == 's' && Render(Part(1, u)) == "1 " + name[..|name| - 1]
  {
    var name := Name(u);
    assert RStrip(name[..|name| - 1], 's') == name[..|name| - 1];
  }

  /** One step of the decomposition, rendered. */
  lemma RenderStep(secs: int, u: Unit)
    ensures RenderAll(Parts(secs, u)) ==
      if Quot(secs, u) != 0 then [Render(Part(Quot(secs, u), u))] + RenderAll(Parts(Rem(secs, u), u + 1))
      else RenderAll(Parts(secs, u + 1))
  {
    if Quot(secs, u) != 0 {
      var tail := Parts(Rem(secs, u), u + 1);
      assert ([Part(Quot(secs, u), u)] + tail)[1..] == tail;
    }
  }

  /** `value = seconds // count` and, for a non-zero value,
      `seconds -= value * count`: the whole units `u` in `secs` and what is
      left of it. */
  method TakeUnit(secs: int, u: Unit) returns (value: int, rest: int)
    ensures value == Quot(secs, u) && rest == Rem(secs, u)
  {
    var count := Count(u);
    value := secs / count;
    rest := secs - value * count;
    TakeUnits(secs, u);
  }

  /** What the loop appends for a non-zero `value` of unit `u`:
      `"{} {}".format(value, name)`, the name singular when the value is 1. */
  method Format(value: int, u: Unit) returns (piece: string)
    ensures piece == Render(Part(value, u))
  {
    var name := Name(u);
    if value == 1 {
      name := RStrip(name, 's');
    }
    piece := IntToString(value) + " " + name;
  }

  /** A turn of the loop of `human_time` that finds a non-zero `value`: the
      piece it appends and the seconds it leaves keep the loop invariant. */
  lemma TakeStep(seconds: int, result: seq<string>, secs: int, u: Unit, piece: string)
    requires result + RenderAll(Parts(secs, u)) == RenderAll(Parts(seconds, 0))
    requires Quot(secs, u) != 0
    requires piece == Render(Part(Quot(secs, u), u))
    ensures (result + [piece]) + RenderAll(Parts(Rem(secs, u), u + 1)) == RenderAll(Parts(seconds, 0))
  {
    RenderStep(secs, u);
    var rest := RenderAll(Parts(Rem(secs, u), u + 1));
    assert result + ([piece] + rest) == (result + [piece]) + rest;
  }

  /** A turn that finds a zero `value` keeps the invariant unchanged. */
  lemma SkipStep(seconds: int, result: seq<string>, secs: int, u: Unit)
    requires result + RenderAll(Parts(secs, u)) == RenderAll(Parts(seconds, 0))
    requires Quot(secs, u) == 0
    ensures result + RenderAll(Parts(secs, u + 1)) == RenderAll(Parts(seconds, 0))
  {
    RenderStep(secs, u);
  }

  /** `human_time(seconds, granularity)` */
  method HumanTime(seconds: int, granularity: int) returns (text: string)
    ensures text == Join(Shown(seconds, granularity), ", ")
  {
    var result: seq<string> := [];
    var secs := seconds;
    for i := 0 to Units
      invariant result + RenderAll(Parts(secs, i)) == RenderAll(Parts(seconds, 0))
    {
      var value, rest := TakeUnit(secs, i);
      if value != 0 {
        var piece := Format(value, i);
        TakeStep(seconds, result, secs, i, piece);
        secs := rest;
        result := result + [piece];
      } else {
        SkipStep(seconds, result, secs, i);
      }
    }
    assert RenderAll(Parts(secs, Units)) == [];
    assert result == RenderAll(Parts(seconds, 0));
    text := Join(PrefixSlice(result, granularity), ", ");
  }

  /** A zero duration is written as the empty string, whatever the granularity. */
  lemma ZeroIsEmpty(granularity: int)
    ensures Join(Shown(0, granularity), ", ") == ""
  {
    ZeroHasNoParts(0);
  }
}
