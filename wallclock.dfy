/**
 * The wall-clock process: the `hh:mm:ss` text helpers and the command state
 * machine driven by `%WR` (reset), `%WS hh:mm:ss` (set), `%WT` (terminate) and
 * the self-addressed `%WI` ticks.
 *
 * Characters are C `char`s: 8-bit and unsigned, so `intToChar` and the
 * incrementor id wrap modulo 256.  C's `/` and `%` truncate toward zero, which
 * `CDiv` and `CRem` spell out for negative times.
 */
module WallClock {
  import opened Ipc

  predicate IsWhitespace(c: char) {
    c == ' ' || c == '\t' || c == '\n' || c == '\r'
  }

  function Scan(cur: seq<char>, i: nat): (r: int)
    requires i <= Strlen(cur)
    decreases Strlen(cur) - i
    ensures r == -1 || (i <= r < Strlen(cur) && !IsWhitespace(cur[r]))
    ensures forall j :: i <= j < (if r == -1 then Strlen(cur) else r) ==> IsWhitespace(cur[j])
  {
    if i == Strlen(cur) then -1
    else if !IsWhitespace(cur[i]) then i
    else Scan(cur, i + 1)
  }

  /**
   * nextNonWhitespace: the index of the first character before the NUL that is
   * not blank, tab, newline or return, or -1 when there is none.  Besides the
   * NUL, the end of the buffer also ends the scan.
   */
  function NextNonWhitespace(cur: seq<char>): (r: int)
    ensures r == -1 <==> forall j :: 0 <= j < Strlen(cur) ==> IsWhitespace(cur[j])
    ensures r != -1 ==> 0 <= r < Strlen(cur) && !IsWhitespace(cur[r])
    ensures r != -1 ==> forall j :: 0 <= j < r ==> IsWhitespace(cur[j])
  {
    Scan(cur, 0)
  }

  function CharToInt(c: char): int {
    c as int - '0' as int
  }

  /** `i + '0'` stored in an 8-bit unsigned `char`. */
  function IntToChar(i: int): char {
    ((i + '0' as int) % 256) as char
  }

  predicate IsDigit(c: char) {
    '0' <= c <= '9'
  }

  lemma DigitRoundTrip(d: int, c: char)
    ensures 0 <= d < 10 ==> IsDigit(IntToChar(d)) && CharToInt(IntToChar(d)) == d
    ensures IsDigit(c) ==> 0 <= CharToInt(c) < 10 && IntToChar(CharToInt(c)) == c
  {
  }

  /** parseTime: the digits at positions 0-1, 3-4 and 6-7 as hours, minutes, seconds. */
  function ParseTime(s: seq<char>): (r: int)
    requires |s| >= 8
  {
    var hours := CharToInt(s[0]) * 10 + CharToInt(s[1]);
    var minutes := CharToInt(s[3]) * 10 + CharToInt(s[4]);
    var seconds := CharToInt(s[6]) * 10 + CharToInt(s[7]);
    hours * 60 * 60 + minutes * 60 + seconds
  }

  /** C's truncating division by a positive divisor: the quotient rounds toward zero. */
  function CDiv(a: int, b: int): (q: int)
    requires b > 0
    ensures a >= 0 ==> 0 <= q * b <= a < q * b + b
    ensures a < 0 ==> q * b - b < a <= q * b <= 0
  {
    if a >= 0 then
      DivBounds(a, b);
      a / b
    else
      DivBounds(-a, b);
      NegTimes((-a) / b, b);
      -((-a) / b)
  }

  lemma DivBounds(a: int, b: int)
    requires a >= 0 && b > 0
    ensures 0 <= (a / b) * b <= a < (a / b) * b + b
  {
    var q, r := a / b, a % b;
    assert a == q * b + r && 0 <= r < b;
    assert q >= 0;
    assert q * b >= 0;
  }

  lemma NegTimes(x: int, b: int)
    ensures (-x) * b == -(x * b)
  {
  }

  /** C's remainder: it takes the sign of the dividend. */
  function CRem(a: int, b: int): (r: int)
    requires b > 0
    ensures a == CDiv(a, b) * b + r
    ensures a >= 0 ==> 0 <= r < b
    ensures a < 0 ==> -b < r <= 0
  {
    a - CDiv(a, b) * b
  }

  /** The nine bytes for given hour, minute and second values: two digits each, colons, a NUL. */
  function HmsText(h: int, m: int, s: int): (r: seq<char>)
    ensures |r| == 9
  {
    [IntToChar(CDiv(h, 10)), IntToChar(CRem(h, 10)), ':',
     IntToChar(CDiv(m, 10)), IntToChar(CRem(m, 10)), ':',
     IntToChar(CDiv(s, 10)), IntToChar(CRem(s, 10)), '\0']
  }

  /** The nine bytes timeToStr writes: hh:mm:ss and a NUL, hours taken mod 100. */
  function TimeStr(time: int): (r: seq<char>)
    ensures |r| == 9
  {
    var rest := CRem(time, 3600);
    HmsText(CRem(CDiv(time, 3600), 100), CDiv(rest, 60), CRem(rest, 60))
  }

  /** timeToStr: writes the text of `time` into the first nine elements of `dest`. */
  method TimeToStr(time: int, dest: array<char>)
    requires dest.Length >= 9
    modifies dest
    ensures dest[..9] == TimeStr(time)
    ensures dest[9..] == old(dest[9..])
  {
    var hours := CDiv(time, 3600);
    var t := CRem(time, 3600);
    var minutes := CDiv(t, 60);
    var seconds := CRem(t, 60);
    hours := CRem(hours, 100);
    dest[0] := IntToChar(CDiv(hours, 10));
    dest[1] := IntToChar(CRem(hours, 10));
    dest[2] := ':';
    dest[3] := IntToChar(CDiv(minutes, 10));
    dest[4] := IntToChar(CRem(minutes, 10));
    dest[5] := ':';
    dest[6] := IntToChar(CDiv(seconds, 10));
    dest[7] := IntToChar(CRem(seconds, 10));
    dest[8] := '\0';
  }

  lemma TwoDigits(v: int)
    requires 0 <= v < 100
    ensures IsDigit(IntToChar(CDiv(v, 10))) && CharToInt(IntToChar(CDiv(v, 10))) == v / 10
    ensures IsDigit(IntToChar(CRem(v, 10))) && CharToInt(IntToChar(CRem(v, 10))) == v % 10
  {
    DigitRoundTrip(v / 10, '0');
    DigitRoundTrip(v % 10, '0');
  }

  /** The hour, minute and second values of a non-negative time. */
  lemma TimeParts(t: int)
    requires t >= 0
    ensures var rest := CRem(t, 3600);
      CRem(CDiv(t, 3600), 100) == t / 3600 % 100 && CDiv(rest, 60) == t % 3600 / 60
      && CRem(rest, 60) == t % 3600 % 60 && t % 3600 / 60 < 60
  {
  }

  lemma HmsTextShape(h: int, m: int, s: int)
    requires 0 <= h < 100 && 0 <= m < 100 && 0 <= s < 100
    ensures var r := HmsText(h, m, s);
      IsDigit(r[0]) && IsDigit(r[1]) && r[2] == ':' && IsDigit(r[3]) && IsDigit(r[4])
      && r[5] == ':' && IsDigit(r[6]) && IsDigit(r[7]) && r[8] == '\0'
    ensures var r := HmsText(h, m, s);
      CharToInt(r[0]) * 10 + CharToInt(r[1]) == h && CharToInt(r[3]) * 10 + CharToInt(r[4]) == m
      && CharToInt(r[6]) * 10 + CharToInt(r[7]) == s
  {
    TwoDigits(h);
    TwoDigits(m);
    TwoDigits(s);
  }

  /** For a non-negative time the text is two digits, a colon, two digits, a colon, two digits, NUL. */
  lemma TimeStrShape(t: int)
    requires t >= 0
    ensures var s := TimeStr(t);
      IsDigit(s[0]) && IsDigit(s[1]) && s[2] == ':' && IsDigit(s[3]) && IsDigit(s[4])
      && s[5] == ':' && IsDigit(s[6]) && IsDigit(s[7]) && s[8] == '\0'
    ensures Strlen(TimeStr(t)) == 8
  {
    TimeParts(t);
    HmsTextShape(t / 3600 % 100, t % 3600 / 60, t % 3600 % 60);
    var s := TimeStr(t);
    assert forall i :: 0 <= i < 8 ==> s[i] != '\0';
  }

  lemma ModHundredHours(t: int)
    requires t >= 0
    ensures t / 3600 % 100 * 3600 + t % 3600 == t % 360000
  {
    var h := t / 3600 % 100;
    var a := t / 3600 / 100;
    assert t / 3600 == 100 * a + h;
    assert t == 360000 * a + (3600 * h + t % 3600);
    assert 0 <= 3600 * h + t % 3600 < 360000;
  }

  /** Round trip: parsing the text of a non-negative time gives it back mod 100 hours. */
  lemma ParseTimeStr(t: int)
    requires t >= 0
    ensures ParseTime(TimeStr(t)) == t % 360000
  {
    TimeParts(t);
    HmsTextShape(t / 3600 % 100, t % 3600 / 60, t % 3600 % 60);
    assert t % 3600 / 60 * 60 + t % 3600 % 60 == t % 3600;
    ModHundredHours(t);
  }

  // ---------------------------------------------------------------------
  // The command state machine
  // ---------------------------------------------------------------------

  /** The process's two locals: the time in seconds and the 8-bit incrementor id. */
  datatype Clock = Clock(time: int, id: int)

  ghost predicate ValidClock(c: Clock) {
    0 <= c.id < 256
  }

  /** `incrementorID++` on an unsigned char. */
  function Bump(id: int): (r: int)
    requires 0 <= id < 256
    ensures 0 <= r < 256 && r != id
  {
    (id + 1) % 256
  }

  /** The message text turned into a tick "%WI" NUL id. */
  function TickText(mtext: seq<char>, id: int): (r: seq<char>)
    requires |mtext| >= 5 && 0 <= id < 256
    ensures |r| == |mtext| && r[2] == 'I' && r[4] as int == id
    ensures r[..5] == ['%', 'W', 'I', '\0', id as char] && r[5..] == mtext[5..]
  {
    mtext[0 := '%'][1 := 'W'][2 := 'I'][3 := '\0'][4 := id as char]
  }

  /**
   * The time command as written: the scan for the time starts at the start of
   * the text, which holds "%WS", so the parse reads the command itself.
   */
  function SetTimeAsWritten(mtext: seq<char>): int
    requires 0 <= NextNonWhitespace(mtext) && NextNonWhitespace(mtext) + 8 <= |mtext|
  {
    ParseTime(mtext[NextNonWhitespace(mtext)..])
  }

  /** Where the corrected time command reads the time: past "%WS" and the blanks after it. */
  function SetOffset(mtext: seq<char>): int
    requires |mtext| >= 3
  {
    3 + NextNonWhitespace(mtext[3..])
  }

  /**
   * A time command whose eight time bytes lie inside the buffer.  With nothing
   * but blanks after "%WS" the offset is 2 and the bytes are read from the
   * command letter on, as the code does not check for a missing time.
   */
  predicate SetReadable(mtext: seq<char>) {
    |mtext| >= 3 && SetOffset(mtext) + 8 <= |mtext|
  }

  /** The time command as intended: parse the first non-blank text after the command letter. */
  function SetTime(mtext: seq<char>): int
    requires SetReadable(mtext)
  {
    ParseTime(mtext[SetOffset(mtext)..])
  }

  /** The intended behaviour: "%WS " followed by the text of a time sets that time. */
  lemma SetTimeOfText(t: int, rest: seq<char>)
    requires t >= 0
    ensures SetReadable("%WS " + TimeStr(t) + rest)
    ensures SetTime("%WS " + TimeStr(t) + rest) == t % 360000
  {
    var m := "%WS " + TimeStr(t) + rest;
    TimeStrShape(t);
    assert m[3..][0] == ' ' && m[3..][1] == TimeStr(t)[0];
    assert Strlen(m[3..]) >= 2 by {
      assert m[3..][0] != '\0' && m[3..][1] != '\0';
    }
    assert NextNonWhitespace(m[3..]) == 1;
    assert m[4..][..8] == TimeStr(t)[..8];
    ParseTimeStr(t);
  }

  /**
   * A time command with no time after the letter, in a buffer of at least ten
   * bytes, is handled: the eight bytes from the command letter on are parsed.
   */
  lemma SetWithoutTime(mtext: seq<char>)
    requires |mtext| >= 10 && mtext[..4] == "%WS\0"
    ensures SetOffset(mtext) == 2 && SetReadable(mtext)
    ensures SetTime(mtext) == ParseTime(mtext[2..10])
  {
    assert mtext[3..][0] == '\0';
    assert Strlen(mtext[3..]) == 0;
  }

  /** The command text a user types, "%WS 12:34:56", as delivered by the dispatcher. */
  const SetExample: seq<char> := "%WS 12:34:56\0"

  lemma SetExampleScan(m: seq<char>)
    requires m == SetExample
    ensures NextNonWhitespace(m) == 0
  {
    assert m[0] == '%' && Strlen(m) != 0;
  }

  lemma SetExampleTimeScan(m: seq<char>)
    requires m == SetExample
    ensures NextNonWhitespace(m[3..]) == 1
  {
    var u := m[3..];
    assert u[0] == ' ' && u[1] == '1' && Strlen(u) != 0 && Strlen(u) != 1;
    assert Scan(u, 0) == Scan(u, 1);
  }

  /** As written, that command sets the clock to a negative time instead of 12:34:56. */
  lemma SetTimeAsWrittenExample(m: seq<char>)
    requires m == SetExample
    ensures NextNonWhitespace(m) == 0
    ensures SetTimeAsWritten(m) == -265037
    ensures SetReadable(m) && SetTime(m) == 45296
  {
    SetExampleScan(m);
    SetExampleTimeScan(m);
    assert m[0..] == m;
    var s := m[4..];
    assert s[0] == '1' && s[1] == '2' && s[3] == '3' && s[4] == '4' && s[6] == '5' && s[7] == '6';
  }

  /** The bytes the clock reads: the command letter, the tick id, and the time of a set command. */
  predicate Readable(m: MsgBuf) {
    |m.mtext| >= 5 && (m.mtext[2] == 'S' ==> SetReadable(m.mtext))
  }

  /** One received message: the new locals and the kernel calls made for it, in order. */
  function Step(c: Clock, m: MsgBuf): (r: (Clock, seq<Action>))
    requires ValidClock(c) && Readable(m)
    ensures ValidClock(r.0)
  {
    var command := m.mtext[2];
    if command == 'R' then
      var id := Bump(c.id);
      (Clock(0, id),
       [DelayedSend(PID_CLOCK, MsgBuf(DEFAULT, TickText(m.mtext, id)), 1000),
        SendNew(PID_CRT, DEFAULT, TimeStr(0))])
    else if command == 'I' then
      if m.mtext[4] as int == c.id then
        (Clock(c.time + 1, c.id),
         [DelayedSend(PID_CLOCK, m, 1000), SendNew(PID_CRT, DEFAULT, TimeStr(c.time + 1))])
      else
        (c, [Release(m)])
    else if command == 'S' then
      var id := Bump(c.id);
      var time := SetTime(m.mtext);
      (Clock(time, id),
       [DelayedSend(PID_CLOCK, MsgBuf(DEFAULT, TickText(m.mtext, id)), 1000),
        SendNew(PID_CRT, DEFAULT, TimeStr(time))])
    else if command == 'T' then
      (Clock(c.time, Bump(c.id)), [Release(m)])
    else
      (c, [Release(m)])
  }

  /** The locals and the calls after a sequence of received messages. */
  function Run(c: Clock, inbox: seq<MsgBuf>): (r: (Clock, seq<Action>))
    requires ValidClock(c) && forall i :: 0 <= i < |inbox| ==> Readable(inbox[i])
    ensures ValidClock(r.0)
    decreases |inbox|
  {
    if inbox == [] then (c, [])
    else
      var (c1, a1) := Step(c, inbox[0]);
      var (c2, a2) := Run(c1, inbox[1..]);
      (c2, a1 + a2)
  }

  /** The registration the clock sends to the dispatcher before its loop. */
  const Registration: Action := SendNew(PID_KCD, KCD_REG, ['%', 'W', '\0'])

  /** The body of the receive loop for one message. */
  method Handle(time0: int, id0: int, msg: MsgBuf) returns (time: int, incrementorID: int, acts: seq<Action>)
    requires 0 <= id0 < 256 && Readable(msg)
    ensures time == Step(Clock(time0, id0), msg).0.time && incrementorID == Step(Clock(time0, id0), msg).0.id
    ensures acts == Step(Clock(time0, id0), msg).1
  {
    time, incrementorID := time0, id0;
    var command := msg.mtext[2];
    if command == 'R' {
      incrementorID := (incrementorID + 1) % 256;
      time := 0;
      var tick := MsgBuf(DEFAULT, TickText(msg.mtext, incrementorID));
      var printMsg := new char[9];
      TimeToStr(time, printMsg);
      acts := [DelayedSend(PID_CLOCK, tick, 1000), SendNew(PID_CRT, DEFAULT, printMsg[..9])];
    } else if command == 'I' {
      if msg.mtext[4] as int == incrementorID {
        time := time + 1;
        var printMsg := new char[9];
        TimeToStr(time, printMsg);
        acts := [DelayedSend(PID_CLOCK, msg, 1000), SendNew(PID_CRT, DEFAULT, printMsg[..9])];
      } else {
        acts := [Release(msg)];
      }
    } else if command == 'S' {
      incrementorID := (incrementorID + 1) % 256;
      var offset := SetOffset(msg.mtext);
      time := ParseTime(msg.mtext[offset..]);
      var tick := MsgBuf(DEFAULT, TickText(msg.mtext, incrementorID));
      var printMsg := new char[9];
      TimeToStr(time, printMsg);
      acts := [DelayedSend(PID_CLOCK, tick, 1000), SendNew(PID_CRT, DEFAULT, printMsg[..9])];
    } else if command == 'T' {
      incrementorID := (incrementorID + 1) % 256;
      acts := [Release(msg)];
    } else {
      acts := [Release(msg)];
    }
  }

  /**
   * wallClockProc over the messages it receives: registers with the
   * dispatcher, then handles each message as `Step` says.
   */
  method WallClockProc(inbox: seq<MsgBuf>) returns (actions: seq<Action>, time: int, incrementorID: int)
    requires forall i :: 0 <= i < |inbox| ==> Readable(inbox[i])
    ensures Clock(time, incrementorID) == Run(Clock(0, 0), inbox).0
    ensures actions == [Registration] + Run(Clock(0, 0), inbox).1
  {
    actions := [SendNew(PID_KCD, KCD_REG, ['%', 'W', '\0'])];
    time := 0;
    incrementorID := 0;
    var i := 0;
    while i < |inbox|
      invariant 0 <= i <= |inbox| && 0 <= incrementorID < 256
      invariant Run(Clock(time, incrementorID), inbox[i..]).0 == Run(Clock(0, 0), inbox).0
      invariant actions + Run(Clock(time, incrementorID), inbox[i..]).1
             == [Registration] + Run(Clock(0, 0), inbox).1
    {
      RunAdvance(Clock(time, incrementorID), inbox, i, actions);
      var acts;
      time, incrementorID, acts := Handle(time, incrementorID, inbox[i]);
      actions := actions + acts;
      i := i + 1;
    }
  }

  /** One more message handled: what is still to come shrinks by the step just taken. */
  lemma RunAdvance(c: Clock, inbox: seq<MsgBuf>, i: int, done: seq<Action>)
    requires ValidClock(c) && 0 <= i < |inbox| && forall j :: 0 <= j < |inbox| ==> Readable(inbox[j])
    ensures var s := Step(c, inbox[i]); var r := Run(s.0, inbox[i + 1..]);
      Run(c, inbox[i..]).0 == r.0 && done + Run(c, inbox[i..]).1 == (done + s.1) + r.1
  {
    assert inbox[i..] == [inbox[i]] + inbox[i + 1..];
    RunCons(c, inbox[i], inbox[i + 1..]);
  }

  lemma RunCons(c: Clock, m: MsgBuf, rest: seq<MsgBuf>)
    requires ValidClock(c) && Readable(m) && forall i :: 0 <= i < |rest| ==> Readable(rest[i])
    ensures var s := Step(c, m); var r := Run(s.0, rest);
      Run(c, [m] + rest) == (r.0, s.1 + r.1)
  {
    assert ([m] + rest)[1..] == rest;
  }

  /** Reset: time 0, a new id, and a tick tagged with that id goes back to the clock. */
  lemma ResetStep(c: Clock, m: MsgBuf)
    requires ValidClock(c) && Readable(m) && m.mtext[2] == 'R'
    ensures Step(c, m).0 == Clock(0, Bump(c.id))
    ensures var a := Step(c, m).1[0];
      a.DelayedSend? && a.dest == PID_CLOCK && a.msg.mtext[2] == 'I' && a.msg.mtext[4] as int == Step(c, m).0.id
  {
  }

  /** A tick with the current id advances the time and is sent again; a stale one is only released. */
  lemma TickStep(c: Clock, m: MsgBuf)
    requires ValidClock(c) && Readable(m) && m.mtext[2] == 'I'
    ensures m.mtext[4] as int == c.id ==>
      Step(c, m) == (Clock(c.time + 1, c.id), [DelayedSend(PID_CLOCK, m, 1000), SendNew(PID_CRT, DEFAULT, TimeStr(c.time + 1))])
    ensures m.mtext[4] as int != c.id ==> Step(c, m) == (c, [Release(m)])
  {
  }

  /**
   * Terminate makes every outstanding tick stale: a tick tagged with the id in
   * force before `%WT` is released afterwards and the time stays.
   */
  lemma TerminateStalesTicks(c: Clock, t: MsgBuf, tick: MsgBuf)
    requires ValidClock(c) && Readable(t) && t.mtext[2] == 'T'
    requires Readable(tick) && tick.mtext[2] == 'I' && tick.mtext[4] as int == c.id
    ensures Step(c, t).0 == Clock(c.time, Bump(c.id))
    ensures Step(Step(c, t).0, tick) == (Step(c, t).0, [Release(tick)])
  {
  }

  /** Any command other than R, I, S and T only releases its message. */
  lemma UnknownCommand(c: Clock, m: MsgBuf)
    requires ValidClock(c) && Readable(m) && m.mtext[2] !in {'R', 'I', 'S', 'T'}
    ensures Step(c, m) == (c, [Release(m)])
  {
  }
}
