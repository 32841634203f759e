/**
 * The uptime text of the bot: whole seconds split into days, hours,
 * minutes and seconds and written as `Dd:HHh:MMm:SSs`.
 */
module Uptime {
  import opened Options
  import opened Decimal

  datatype Parts = Parts(days: nat, hours: nat, minutes: nat, seconds: nat)

  /** The split of `secs` into days, hours below 24, minutes and seconds below 60. */
  function Decompose(secs: nat): (p: Parts)
    ensures p.days * 86400 + p.hours * 3600 + p.minutes * 60 + p.seconds == secs
    ensures p.hours < 24 && p.minutes < 60 && p.seconds < 60
  {
    var dayRest := secs % 86400;
    var hourRest := dayRest % 3600;
    Parts(secs / 86400, dayRest / 3600, hourRest / 60, hourRest % 60)
  }

  /** Days unpadded, hours, minutes and seconds padded to two digits. */
  function Render(p: Parts): string {
    NatToString(p.days) + ("d:" + Pad2(p.hours) + "h:" + Pad2(p.minutes) + "m:" + Pad2(p.seconds) + "s")
  }

  /** Reads a text of the shape `Dd:HHh:MMm:SSs` back into seconds: the
      last thirteen characters are the fixed-width tail, the rest the days. */
  function ParseUptime(t: string): Option<nat> {
    if |t| < 14 then None else ParseSplit(t[..|t| - 13], t[|t| - 13..])
  }

  /** Reads the days digits and the fixed-width tail into seconds. */
  function ParseSplit(days: string, tail: string): Option<nat>
    requires |tail| == 13
  {
    if AllDigits(days) then
      match ParseTail(tail)
      case Some(rest) => Some(DigitsValue(days) * 86400 + rest)
      case None => None
    else
      None
  }

  /** Reads the fixed-width tail `d:HHh:MMm:SSs` into seconds. */
  function ParseTail(r: string): Option<nat>
    requires |r| == 13
  {
    if r[0] == 'd' && r[1] == ':' && r[4] == 'h' && r[5] == ':' && r[8] == 'm' && r[9] == ':' && r[12] == 's'
       && AllDigits(r[2..4]) && AllDigits(r[6..8]) && AllDigits(r[10..12])
    then
      Some(DigitsValue(r[2..4]) * 3600 + DigitsValue(r[6..8]) * 60 + DigitsValue(r[10..12]))
    else
      None
  }

  /** The split is the only one with hours below 24 and minutes and seconds below 60. */
  lemma DecomposeUnique(secs: nat, p: Parts)
    requires p.days * 86400 + p.hours * 3600 + p.minutes * 60 + p.seconds == secs
    requires p.hours < 24 && p.minutes < 60 && p.seconds < 60
    ensures p == Decompose(secs)
  {
    var q := Decompose(secs);
    assert p.days == q.days;
    assert p.hours == q.hours;
  }

  /** Where the fields sit in the fixed-width tail. */
  lemma TailLayout(h: string, m: string, s: string)
    requires |h| == 2 && |m| == 2 && |s| == 2
    ensures var r := "d:" + h + "h:" + m + "m:" + s + "s";
      && |r| == 13
      && r[0] == 'd' && r[1] == ':' && r[4] == 'h' && r[5] == ':' && r[8] == 'm' && r[9] == ':' && r[12] == 's'
      && r[2..4] == h && r[6..8] == m && r[10..12] == s
  {
  }

  lemma ParseTailFields(r: string, h: string, m: string, s: string)
    requires AllDigits(h) && AllDigits(m) && AllDigits(s)
    requires |r| == 13 && r[0] == 'd' && r[1] == ':' && r[4] == 'h' && r[5] == ':' && r[8] == 'm' && r[9] == ':' && r[12] == 's'
    requires r[2..4] == h && r[6..8] == m && r[10..12] == s
    ensures ParseTail(r) == Some(DigitsValue(h) * 3600 + DigitsValue(m) * 60 + DigitsValue(s))
  {
  }

  lemma TailRoundTrip(h: string, m: string, s: string)
    requires |h| == 2 && |m| == 2 && |s| == 2
    requires AllDigits(h) && AllDigits(m) && AllDigits(s)
    ensures |"d:" + h + "h:" + m + "m:" + s + "s"| == 13
    ensures ParseTail("d:" + h + "h:" + m + "m:" + s + "s") == Some(DigitsValue(h) * 3600 + DigitsValue(m) * 60 + DigitsValue(s))
  {
    TailLayout(h, m, s);
    ParseTailFields("d:" + h + "h:" + m + "m:" + s + "s", h, m, s);
  }

  /** A run of digits followed by a well-formed tail reads as the days
      the digits spell plus the seconds of the tail. */
  lemma SplitAtTail(d: string, tail: string)
    requires |d| >= 1 && |tail| == 13
    ensures ParseUptime(d + tail) == ParseSplit(d, tail)
  {
    var t := d + tail;
    assert t[..|t| - 13] == d;
    assert t[|t| - 13..] == tail;
  }

  lemma SplitValue(d: string, tail: string, rest: nat)
    requires AllDigits(d) && |tail| == 13 && ParseTail(tail) == Some(rest)
    ensures ParseSplit(d, tail) == Some(DigitsValue(d) * 86400 + rest)
  {
  }

  /** The uptime text reads back as the number of seconds it was made from. */
  lemma RenderRoundTrip(p: Parts)
    requires p.hours < 100 && p.minutes < 100 && p.seconds < 100
    ensures ParseUptime(Render(p)) == Some(p.days * 86400 + p.hours * 3600 + p.minutes * 60 + p.seconds)
  {
    var d, h, m, s := NatToString(p.days), Pad2(p.hours), Pad2(p.minutes), Pad2(p.seconds);
    var tail := "d:" + h + "h:" + m + "m:" + s + "s";
    TailRoundTrip(h, m, s);
    SplitAtTail(d, tail);
    SplitValue(d, tail, p.hours * 3600 + p.minutes * 60 + p.seconds);
    assert Render(p) == d + tail;
  }

  /** The uptime text of any number of seconds reads back as that number. */
  lemma UptimeRoundTrip(secs: nat)
    ensures ParseUptime(Render(Decompose(secs))) == Some(secs)
  {
    RenderRoundTrip(Decompose(secs));
  }

  /** The text formatUptime produces for `uptimeSecs` whole seconds. */
  method FormatUptime(uptimeSecs: nat) returns (text: string)
    ensures text == Render(Decompose(uptimeSecs))
    ensures ParseUptime(text) == Some(uptimeSecs)
  {
    var secs := uptimeSecs;
    var days := secs / 86400;
    secs := secs % 86400;
    var hours := secs / 3600;
    secs := secs % 3600;
    var minutes := secs / 60;
    secs := secs % 60;
    var seconds := secs;

    var hh := NatToString(hours);
    var mm := NatToString(minutes);
    var ss := NatToString(seconds);
    if hours < 10 { hh := "0" + hh; }
    if minutes < 10 { mm := "0" + mm; }
    if seconds < 10 { ss := "0" + ss; }
    text := NatToString(days) + ("d:" + hh + "h:" + mm + "m:" + ss + "s");
    assert Parts(days, hours, minutes, seconds) == Decompose(uptimeSecs);
    assert hh == Pad2(hours) && mm == Pad2(minutes) && ss == Pad2(seconds);
    UptimeRoundTrip(uptimeSecs);
  }

}
