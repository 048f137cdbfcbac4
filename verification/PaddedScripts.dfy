/** The padded sleep scripts of the load generator: their exact length and what a shell
    runs of them. */
module PaddedScripts {
  import opened Decimals

  type Byte = n: int | 0 <= n < 256

  // ----- base64, section 4 of RFC 4648 -------------------------------------------

  function Sextet(n: int): (c: char)
    requires 0 <= n < 64
    ensures c != '\n'
  {
    if n < 26 then 'A' + n as char
    else if n < 52 then 'a' + (n - 26) as char
    else if n < 62 then '0' + (n - 52) as char
    else if n == 62 then '+'
    else '/'
  }

  function Encode(b: seq<Byte>): string {
    if |b| == 0 then ""
    else if |b| == 1 then [Sextet(b[0] / 4), Sextet(b[0] % 4 * 16), '=', '=']
    else if |b| == 2 then
      [Sextet(b[0] / 4), Sextet(b[0] % 4 * 16 + b[1] / 16), Sextet(b[1] % 16 * 4), '=']
    else
      [Sextet(b[0] / 4), Sextet(b[0] % 4 * 16 + b[1] / 16), Sextet(b[1] % 16 * 4 + b[2] / 64), Sextet(b[2] % 64)] +
      Encode(b[3..])
  }

  /** Four characters for every three bytes begun, none of them a line break. */
  lemma {:induction false} EncodeLength(b: seq<Byte>)
    ensures |Encode(b)| == (|b| + 2) / 3 * 4
    ensures '\n' !in Encode(b)
  {
    hide Sextet;
    if |b| > 2 { EncodeLength(b[3..]); }
  }

  function SextetValue(c: char): int {
    if 'A' <= c <= 'Z' then c as int - 'A' as int
    else if 'a' <= c <= 'z' then c as int - 'a' as int + 26
    else if '0' <= c <= '9' then c as int - '0' as int + 52
    else if c == '+' then 62
    else 63
  }

  /** The bytes an encoding stands for. */
  function Decode(s: string): seq<int> {
    if |s| < 4 then []
    else
      var a, b, c, d := SextetValue(s[0]), SextetValue(s[1]), SextetValue(s[2]), SextetValue(s[3]);
      var bytes := [a * 4 + b / 16, b % 16 * 16 + c / 4, c % 4 * 64 + d];
      (if s[2] == '=' then bytes[..1] else if s[3] == '=' then bytes[..2] else bytes) + Decode(s[4..])
  }

  lemma SextetReads(n: int)
    requires 0 <= n < 64
    ensures SextetValue(Sextet(n)) == n && Sextet(n) != '='
  {
  }

  /** Encoding loses nothing. */
  lemma {:induction false} EncodeReads(b: seq<Byte>)
    ensures Decode(Encode(b)) == b
  {
    hide Sextet, SextetValue;
    forall n | 0 <= n < 64 ensures SextetValue(Sextet(n)) == n && Sextet(n) != '=' { SextetReads(n); }
    var s := Encode(b);
    if |b| == 1 || |b| == 2 {
      assert s[4..] == "";
    } else if |b| > 2 {
      EncodeReads(b[3..]);
      assert s[4..] == Encode(b[3..]);
      assert b == b[..3] + b[3..];
    }
  }

  /** The bits that fill up the last group are zero, section 3.5. */
  lemma {:induction false} EncodePads(b: seq<Byte>)
    ensures |b| % 3 == 1 ==> |Encode(b)| >= 4 && SextetValue(Encode(b)[|Encode(b)| - 3]) % 16 == 0
    ensures |b| % 3 == 2 ==> |Encode(b)| >= 4 && SextetValue(Encode(b)[|Encode(b)| - 2]) % 4 == 0
  {
    hide Sextet, SextetValue;
    if |b| == 1 {
      SextetReads(b[0] % 4 * 16);
    } else if |b| == 2 {
      SextetReads(b[1] % 16 * 4);
    } else if |b| > 2 {
      EncodePads(b[3..]);
    }
  }

  // ----- padScript ------------------------------------------------------------------

  const SHEBANG := "#!/usr/bin/env sh"
  const PREFIX := "# padding: "

  function Base(seconds: int): string {
    SHEBANG + "\n" + "sleep " + PrintInt(seconds) + "\n"
  }

  function Needed(seconds: int, target: int): int {
    target - (|Base(seconds)| + |PREFIX| + 1)
  }

  function Buffer(n: nat, random: nat -> Byte): (b: seq<Byte>)
    ensures |b| == n
  {
    seq(n, i requires 0 <= i => random(i))
  }

  /** `random` is what the entropy source would write into the buffer. */
  function PadScript(seconds: int, target: int, random: nat -> Byte): string {
    var base := Base(seconds);
    var needed := Needed(seconds, target);
    if needed <= 0 then base
    else
      var raw := needed * 3 / 4;
      if raw <= 0 then base
      else
        var padding := Encode(Buffer(raw, random));
        base + PREFIX + (if |padding| > needed then padding[..needed] else padding) + "\n"
  }

  /** The script has the target length, or one byte less when the room left for padding
      is one more than a multiple of four; with room for at most one byte it stays bare. */
  lemma PadScriptLength(seconds: int, target: int, random: nat -> Byte)
    ensures var needed := Needed(seconds, target);
            |PadScript(seconds, target, random)| ==
            if needed <= 1 then |Base(seconds)|
            else if needed % 4 == 1 then target - 1
            else target
  {
    hide Base, Encode;
    var needed := Needed(seconds, target);
    if needed > 1 {
      QuartersOf(needed);
      EncodeLength(Buffer(needed * 3 / 4, random));
    }
  }

  /** Three quarters of a length, encoded, give the length back, rounded to fours. */
  lemma QuartersOf(needed: int)
    requires needed > 1
    ensures var raw := needed * 3 / 4;
            raw >= 1 && if needed % 4 == 1 then (raw + 2) / 3 * 4 == needed - 1 else (raw + 2) / 3 * 4 >= needed
  {
    var q, r := needed / 4, needed % 4;
    assert needed * 3 / 4 == 3 * q + r * 3 / 4;
  }

  // ----- what a shell runs ------------------------------------------------------------

  /** The lines of a text, each ended by a line break; an unended rest counts as a line. */
  function Lines(s: string, current: string := ""): seq<string>
    decreases |s|
  {
    if s == "" then (if current == "" then [] else [current])
    else if s[0] == '\n' then [current] + Lines(s[1..])
    else Lines(s[1..], current + [s[0]])
  }

  /** The lines a shell does not skip as comments. */
  function Commands(lines: seq<string>): seq<string> {
    if lines == [] then []
    else if lines[0] != "" && lines[0][0] == '#' then Commands(lines[1..])
    else [lines[0]] + Commands(lines[1..])
  }

  lemma {:induction false} LinesFrom(a: string, b: string, current: string)
    requires '\n' !in a
    ensures Lines(a + b, current) == Lines(b, current + a)
    decreases |a|
  {
    if a == "" {
      assert a + b == b && current + a == current;
    } else {
      assert (a + b)[0] == a[0] && (a + b)[1..] == a[1..] + b;
      LinesFrom(a[1..], b, current + [a[0]]);
      assert current + [a[0]] + a[1..] == current + a;
    }
  }

  lemma LineFirst(line: string, rest: string)
    requires '\n' !in line
    ensures Lines(line + "\n" + rest) == [line] + Lines(rest)
  {
    assert line + "\n" + rest == line + ("\n" + rest);
    LinesFrom(line, "\n" + rest, "");
    assert ("\n" + rest)[0] == '\n' && ("\n" + rest)[1..] == rest && "" + line == line;
  }

  lemma PrintIntOnLine(n: int)
    ensures '\n' !in PrintInt(n)
  {
    hide PrintNat;
    PrintNatReads(if n < 0 then -n else n);
    assert !IsDigit('\n');
  }

  lemma BaseLines(seconds: int, rest: string)
    ensures Lines(Base(seconds) + rest) == [SHEBANG, "sleep " + PrintInt(seconds)] + Lines(rest)
  {
    hide Lines, PrintInt;
    PrintIntOnLine(seconds);
    var sleep := "sleep " + PrintInt(seconds);
    assert Base(seconds) + rest == SHEBANG + "\n" + (sleep + "\n" + rest);
    LineFirst(SHEBANG, sleep + "\n" + rest);
    LineFirst(sleep, rest);
  }

  /** The padding never changes what runs: whatever the random bytes, the only command of
      the script is the sleep. */
  lemma PadScriptRuns(seconds: int, target: int, random: nat -> Byte)
    ensures Commands(Lines(PadScript(seconds, target, random))) == ["sleep " + PrintInt(seconds)]
  {
    hide Lines, PrintInt, Encode, Base;
    var script := PadScript(seconds, target, random);
    var needed := Needed(seconds, target);
    var sleep := "sleep " + PrintInt(seconds);
    if needed * 3 / 4 <= 0 {
      BaseLines(seconds, "");
      assert script + "" == script;
      NoLines();
      var lines := [SHEBANG, sleep];
      assert Lines(script) == lines;
      assert sleep[0] == 's' && Commands(lines[1..][1..]) == [];
      assert Commands(lines[1..]) == [sleep];
    } else {
      var buffer := Buffer(needed * 3 / 4, random);
      EncodeLength(buffer);
      var padding := if |Encode(buffer)| > needed then Encode(buffer)[..needed] else Encode(buffer);
      var comment := PREFIX + padding;
      BaseLines(seconds, comment + "\n" + "");
      assert script == Base(seconds) + (comment + "\n" + "");
      LineFirst(comment, "");
      NoLines();
      var lines := [SHEBANG, sleep, comment];
      assert Lines(script) == lines;
      assert comment[0] == '#' && Commands(lines[1..][1..][1..]) == [];
      assert sleep[0] == 's' && Commands(lines[1..][1..]) == [];
      assert Commands(lines[1..]) == [sleep];
    }
  }

  lemma NoLines()
    ensures Lines("") == []
  {
  }

  // ----- bounds ---------------------------------------------------------------------

  const INT64_MIN := -0x8000_0000_0000_0000
  const INT64_MAX := 0x7fff_ffff_ffff_ffff

  type Int64 = n: int | INT64_MIN <= n <= INT64_MAX

  function Power10(k: nat): int { if k == 0 then 1 else 10 * Power10(k - 1) }

  lemma {:induction false} PrintNatShort(n: nat, k: nat)
    requires 1 <= k && n < Power10(k)
    ensures |PrintNat(n)| <= k
  {
    if n >= 10 {
      assert k > 1;
      PrintNatShort(n / 10, k - 1);
    }
  }

  /** A script of at least a hundred bytes always has room for its padding. */
  lemma RoomForPadding(seconds: Int64, target: int)
    requires target >= 100
    ensures Needed(seconds, target) >= 43
  {
    hide PrintNat;
    assert Power10(5) == 100000 && Power10(10) == 10000000000 && Power10(15) == 1000000000000000;
    assert Power10(19) == 10000000000000000000;
    var n: int := seconds;
    PrintNatShort(if n < 0 then -n else n, 19);
    assert |SHEBANG| == 17 && |"sleep "| == 6 && |PREFIX| == 11;
  }

  lemma PaddedTo(seconds: Int64, target: int, random: nat -> Byte)
    requires target >= 100
    ensures target - 1 <= |PadScript(seconds, target, random)| <= target
  {
    hide PadScript, Needed;
    RoomForPadding(seconds, target);
    PadScriptLength(seconds, target, random);
  }
}
