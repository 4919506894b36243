/** The countdown shown on product cards and on the product page: the time
    left until the end of the auction, in milliseconds, split into days,
    hours, minutes and seconds, or "ended" once it is no longer positive. */
module Countdown {
  import opened Arithmetic

  const MsPerSecond := 1000
  const MsPerMinute := 60 * MsPerSecond
  const MsPerHour := 60 * MsPerMinute
  const MsPerDay := 24 * MsPerHour

  datatype Clock = Ended | Remaining(days: nat, hours: nat, minutes: nat, seconds: nat)

  /** The milliseconds a clock reading stands for. */
  function Millis(days: nat, hours: nat, minutes: nat, seconds: nat): int {
    days * MsPerDay + hours * MsPerHour + minutes * MsPerMinute + seconds * MsPerSecond
  }

  /** `Math.floor` of each quotient; `timeLeft` is positive where they are
      taken, so floor, truncation and Euclidean division agree. The reading
      is exact to the second below `timeLeft`. */
  function Decompose(timeLeft: int): (r: Clock)
    ensures r.Ended? <==> timeLeft <= 0
    ensures r.Remaining? ==> r.hours < 24 && r.minutes < 60 && r.seconds < 60
    ensures r.Remaining? ==>
      var shown := Millis(r.days, r.hours, r.minutes, r.seconds);
      shown <= timeLeft < shown + MsPerSecond
  {
    if timeLeft <= 0 then Ended
    else
      var days := timeLeft / MsPerDay;
      var hours := (timeLeft % MsPerDay) / MsPerHour;
      var minutes := (timeLeft % MsPerHour) / MsPerMinute;
      var seconds := (timeLeft % MsPerMinute) / MsPerSecond;
      Reconstruct(timeLeft);
      Remaining(days, hours, minutes, seconds)
  }

  lemma {:induction false} Reconstruct(t: int)
    requires t > 0
    ensures (t % MsPerDay) / MsPerHour < 24
    ensures (t % MsPerHour) / MsPerMinute < 60
    ensures (t % MsPerMinute) / MsPerSecond < 60
    ensures
      var shown := Millis(t / MsPerDay, (t % MsPerDay) / MsPerHour, (t % MsPerHour) / MsPerMinute,
                          (t % MsPerMinute) / MsPerSecond);
      shown <= t < shown + MsPerSecond
  {
    var days, r1 := t / MsPerDay, t % MsPerDay;
    var hours, r2 := r1 / MsPerHour, r1 % MsPerHour;
    assert r1 == hours * MsPerHour + r2;
    ModUnique(t, MsPerHour, days * 24 + hours, r2);
    var minutes, r3 := r2 / MsPerMinute, r2 % MsPerMinute;
    assert r2 == minutes * MsPerMinute + r3;
    ModUnique(t, MsPerMinute, (days * 24 + hours) * 60 + minutes, r3);
    var seconds, r4 := r3 / MsPerSecond, r3 % MsPerSecond;
    assert r3 == seconds * MsPerSecond + r4;
    assert t == days * MsPerDay + hours * MsPerHour + minutes * MsPerMinute + seconds * MsPerSecond + r4;
  }
}
