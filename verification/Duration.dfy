/** The bounded calendar duration (internal/calendar/calendar.go). Every operation on an int64 is checked for
    overflow. */
module Duration {
  import opened Text

  newtype int64 = x: int | -0x8000_0000_0000_0000 <= x <= 0x7fff_ffff_ffff_ffff

  const MAX: int64 := 0x7fff_ffff_ffff_ffff
  const MILLIS_IN_A_DAY: int64 := 24 * 60 * 60 * 1000
  const MAX_DAYS: int64 := MAX / MILLIS_IN_A_DAY
  const SECOND: int64 := 1_000_000_000
  const MINUTE: int64 := 60 * SECOND
  const HOUR: int64 := 60 * MINUTE

  // The sign is 1 or -1; the components are not negative.
  datatype Duration = Duration(sign: int64, weeks: int64, days: int64, hours: int64, minutes: int64, seconds: int64) {
    predicate Valid() {
      (sign == 1 || sign == -1) && weeks >= 0 && days >= 0 && hours >= 0 && minutes >= 0 && seconds >= 0
    }

    // The exact lengths, in days and nanoseconds.
    function Days(): int {
      7 * weeks as int + days as int
    }

    function Nanos(): int {
      hours as int * HOUR as int + minutes as int * MINUTE as int + seconds as int * SECOND as int
    }
  }

  // One component still fits exactly when the guard lets it through.
  lemma {:induction false} GuardExact(amount: int, unit: int, room: int)
    requires amount >= 0 && unit > 0 && room >= 0
    ensures amount > room / unit <==> amount * unit > room
  {
    var q, r := room / unit, room % unit;
    assert room == q * unit + r && 0 <= r < unit;
    if amount > q {
      assert amount * unit >= (q + 1) * unit == q * unit + unit;
    } else {
      assert amount * unit <= q * unit;
    }
  }

  // amount[0] * unit[0] + ... over the first n components
  function Sum(components: seq<(int64, int64)>, n: nat): int
    requires n <= |components|
  {
    if n == 0 then 0 else Sum(components, n - 1) + components[n - 1].0 as int * components[n - 1].1 as int
  }

  lemma {:induction false} SumGrows(components: seq<(int64, int64)>, m: nat, n: nat)
    requires m <= n <= |components| && forall i :: 0 <= i < |components| ==> components[i].0 >= 0 && components[i].1 > 0
    ensures Sum(components, m) <= Sum(components, n)
  {
    if m < n {
      SumGrows(components, m, n - 1);
      assert components[n - 1].0 as int * components[n - 1].1 as int >= 0;
    }
  }

  // The guard on component i: it refuses exactly when the sum would go over, and then the whole sum does.
  lemma {:induction false} NextFits(components: seq<(int64, int64)>, i: nat, room: int)
    requires i < |components| && forall k :: 0 <= k < |components| ==> components[k].0 >= 0 && components[k].1 > 0
    requires room >= 0
    ensures var product := components[i].0 as int * components[i].1 as int;
      && 0 <= product && (components[i].0 as int > room / components[i].1 as int <==> product > room)
      && Sum(components, i + 1) == Sum(components, i) + product <= Sum(components, |components|)
  {
    var amount, unit := components[i].0 as int, components[i].1 as int;
    GuardExact(amount, unit, room);
    SumGrows(components, i + 1, |components|);
    assert amount * unit >= 0;
  }

  // The clock part: adds up the components unless they exceed 64 bits.
  method ClockOf(components: seq<(int64, int64)>) returns (clock: Option<int64>)
    requires forall i :: 0 <= i < |components| ==> components[i].0 >= 0 && components[i].1 > 0
    ensures clock.Some? <==> Sum(components, |components|) <= MAX as int
    ensures clock.Some? ==> clock.value as int == Sum(components, |components|)
  {
    var total: int64 := 0;
    for i := 0 to |components|
      invariant 0 <= total && total as int == Sum(components, i)
    {
      var amount, unit := components[i].0, components[i].1;
      NextFits(components, i, (MAX - total) as int);
      hide Sum;
      if amount > (MAX - total) / unit {
        return None;
      }
      total := total + amount * unit;
    }
    clock := Some(total);
  }

  // addTo before it touches the date: the signed days and nanoseconds, exactly when both fit.
  method Bounded(d: Duration) returns (r: Option<(int64, int64)>)
    requires d.Valid()
    ensures r.Some? <==> d.Days() <= MAX_DAYS as int && d.Nanos() <= MAX as int
    ensures r.Some? ==> r.value.0 as int == d.sign as int * d.Days() && r.value.1 as int == d.sign as int * d.Nanos()
  {
    if d.weeks > MAX_DAYS / 7 || d.days > MAX_DAYS - d.weeks * 7 {
      return None;
    }
    var days := d.sign * (d.weeks * 7 + d.days);
    var components := [(d.hours, HOUR), (d.minutes, MINUTE), (d.seconds, SECOND)];
    assert Sum(components, 3) == d.Nanos() by {
      assert Sum(components, 1) == d.hours as int * HOUR as int;
      assert Sum(components, 2) == Sum(components, 1) + d.minutes as int * MINUTE as int;
    }
    var clock := ClockOf(components);
    if clock.None? {
      return None;
    }
    r := Some((days, d.sign * clock.value));
  }

  predicate Digits(s: string) {
    forall c <- s :: '0' <= c <= '9'
  }

  // A component the pattern left empty is zero.
  function Component(group: string): Option<int> {
    if group == "" then Some(0) else Atoi(group)
  }

  lemma {:induction false} DigitsNotNegative(s: string)
    requires Digits(s) && s != ""
    ensures Atoi(s).Some? ==> Atoi(s).value >= 0
  {
    assert s[0] in s;
  }

  // parseDuration after its pattern matched: a sign, and five groups of digits. The components fit 64 bits or it fails.
  method ParseDuration(negative: bool, groups: seq<string>) returns (r: Option<Duration>)
    requires |groups| == 5 && forall i :: 0 <= i < 5 ==> Digits(groups[i])
    ensures r.Some? <==>
      (exists i :: 0 <= i < 5 && groups[i] != "") && forall i :: 0 <= i < 5 ==> Component(groups[i]).Some?
    ensures r.Some? ==> r.value.Valid() && r.value.sign == (if negative then -1 else 1)
    ensures r.Some? ==>
      && Some(r.value.weeks as int) == Component(groups[0]) && Some(r.value.days as int) == Component(groups[1])
      && Some(r.value.hours as int) == Component(groups[2]) && Some(r.value.minutes as int) == Component(groups[3])
      && Some(r.value.seconds as int) == Component(groups[4])
  {
    var fields: seq<int64>, hasValue := [0, 0, 0, 0, 0], false;
    for index := 0 to 5
      invariant |fields| == 5 && forall i :: 0 <= i < 5 ==> fields[i] >= 0
      invariant forall i :: 0 <= i < index ==> Component(groups[i]) == Some(fields[i] as int)
      invariant forall i :: index <= i < 5 ==> fields[i] == 0
      invariant hasValue <==> exists i :: 0 <= i < index && groups[i] != ""
    {
      if groups[index] != "" {
        var parsed := Atoi(groups[index]);
        if parsed.None? {
          return None;
        }
        DigitsNotNegative(groups[index]);
        fields := fields[index := parsed.value as int64];
        hasValue := true;
      }
    }
    r := if hasValue
      then Some(Duration(if negative then -1 else 1, fields[0], fields[1], fields[2], fields[3], fields[4])) else None;
  }
}
