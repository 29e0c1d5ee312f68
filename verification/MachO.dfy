/** The check that a prebuilt library is an x86_64 macOS dylib that runs on macOS 13.0. */
module MachO {
  import opened Wrappers
  import opened Bytes

  const MACOS_13: nat := 13 * 0x1_0000

  datatype Verdict = Accepted | NotIntelLibrary | Truncated | InvalidCommand | NotMacOS | NeedsNewerMacOS

  /** A 64-bit little-endian Mach-O header of an x86_64 dynamic library, with any CPU capability bits. */
  predicate IntelLibrary(b: Buffer) {
    && |b| >= 32 && Le32(b, 0) == 0xfeedfacf && Le32(b, 4) == 0x0100_0007
    && Le32(b, 8) % 0x100_0000 == 3 && Le32(b, 12) == 6
  }

  // ---------------------------------------------------------------------------------------------
  // Load commands
  // ---------------------------------------------------------------------------------------------

  /** A load command: its number, and its content after the number and the size. */
  datatype Command = Command(number: nat, content: Buffer)

  ghost predicate Encodable(c: Command) {
    c.number < LIMIT && 8 + |c.content| < LIMIT
  }

  ghost function Encode(c: Command): (b: Buffer)
    requires Encodable(c)
    ensures |b| == 8 + |c.content|
  {
    Le32Of(c.number) + Le32Of(8 + |c.content|) + c.content
  }

  ghost predicate AllEncodable(commands: seq<Command>) {
    forall c :: c in commands ==> Encodable(c)
  }

  ghost function EncodeAll(commands: seq<Command>): Buffer
    requires AllEncodable(commands)
  {
    if commands == [] then [] else Encode(commands[0]) + EncodeAll(commands[1..])
  }

  lemma {:induction false} EncodeLast(commands: seq<Command>, c: Command)
    requires AllEncodable(commands) && Encodable(c)
    ensures AllEncodable(commands + [c]) && EncodeAll(commands + [c]) == EncodeAll(commands) + Encode(c)
  {
    if commands == [] {
      assert [c][1..] == [] && [] + [c] == [c];
    } else {
      EncodeLast(commands[1..], c);
      assert (commands + [c])[1..] == commands[1..] + [c];
    }
  }

  /** Reading an encoded command back. */
  lemma ReadBack(c: Command, rest: Buffer)
    requires Encodable(c)
    ensures var bytes := Encode(c) + rest;
            Le32(bytes, 0) == c.number && Le32(bytes, 4) == 8 + |c.content| && bytes[8..8 + |c.content|] == c.content
  {
    var bytes := Encode(c) + rest;
    assert bytes[0..4] == Le32Of(c.number) && bytes[4..8] == Le32Of(8 + |c.content|);
    Le32RoundTrip(c.number, bytes, 0);
    Le32RoundTrip(8 + |c.content|, bytes, 4);
  }

  /** A command's bytes decide it. */
  lemma SameCommand(a: Command, x: Buffer, b: Command, y: Buffer)
    requires Encodable(a) && Encodable(b) && Encode(a) + x == Encode(b) + y
    ensures a == b && x == y
  {
    ReadBack(a, x);
    ReadBack(b, y);
    assert x == (Encode(a) + x)[8 + |a.content|..] && y == (Encode(b) + y)[8 + |b.content|..];
  }

  /** Of two lists of commands at the start of the same bytes, the shorter starts the longer. */
  lemma {:induction false} SameCommands(a: seq<Command>, x: Buffer, b: seq<Command>, y: Buffer)
    requires AllEncodable(a) && AllEncodable(b) && EncodeAll(a) + x == EncodeAll(b) + y && |a| <= |b|
    ensures a == b[..|a|] && AllEncodable(b[|a|..]) && x == EncodeAll(b[|a|..]) + y
    decreases |a|
  {
    if a == [] {
      assert b[0..] == b;
    } else {
      assert a[0] in a && b[0] in b;
      assert EncodeAll(a) + x == Encode(a[0]) + (EncodeAll(a[1..]) + x);
      assert EncodeAll(b) + y == Encode(b[0]) + (EncodeAll(b[1..]) + y);
      SameCommand(a[0], EncodeAll(a[1..]) + x, b[0], EncodeAll(b[1..]) + y);
      SameCommands(a[1..], x, b[1..], y);
      assert b[1..][|a| - 1..] == b[|a|..];
    }
  }

  // ---------------------------------------------------------------------------------------------
  // What the check is for
  // ---------------------------------------------------------------------------------------------

  /** LC_BUILD_VERSION names macOS as its platform. */
  predicate ForMacOS(c: Command) {
    c.number == 0x32 && |c.content| >= 16 ==> Le32(c.content, 0) == 1
  }

  /** The minimum version in LC_BUILD_VERSION or LC_VERSION_MIN_MACOSX. */
  function MinimumOf(c: Command): Option<nat> {
    if c.number == 0x32 && |c.content| >= 16 then Some(Le32(c.content, 4))
    else if c.number == 0x24 && |c.content| >= 8 then Some(Le32(c.content, 0))
    else None
  }

  /** The last minimum version any command gives. */
  function Minimum(commands: seq<Command>): Option<nat> {
    if commands == [] then None
    else
      var last := MinimumOf(commands[|commands| - 1]);
      if last.Some? then last else Minimum(commands[..|commands| - 1])
  }

  /** The buffer goes on with the commands after the header, and with `rest` after them. */
  ghost predicate Holds(b: Buffer, commands: seq<Command>, rest: Buffer) {
    |b| >= 32 && AllEncodable(commands) && b[32..] == EncodeAll(commands) + rest
  }

  ghost predicate RunsOn13(commands: seq<Command>) {
    && AllForMacOS(commands)
    && Minimum(commands).Some? && Minimum(commands).value <= MACOS_13
  }

  /** The header announces as many load commands as the buffer holds, all for macOS, and the last minimum
      version among them is at most 13.0. */
  ghost predicate Acceptable(b: Buffer) {
    && IntelLibrary(b)
    && exists commands, rest :: Holds(b, commands, rest) && |commands| == Le32(b, 16) && RunsOn13(commands)
  }

  ghost predicate AllForMacOS(commands: seq<Command>) {
    forall c :: c in commands ==> ForMacOS(c)
  }

  /** What each refusal means, in terms of the commands before it. */
  ghost predicate Explains(b: Buffer, verdict: Verdict) {
    match verdict
    case Accepted => Acceptable(b)
    case NotIntelLibrary => !IntelLibrary(b)
    case Truncated =>
      |b| >= 32 && exists commands, rest ::
        Holds(b, commands, rest) && |commands| < Le32(b, 16) && AllForMacOS(commands) && |rest| < 8
    case InvalidCommand =>
      |b| >= 32 && exists commands, rest ::
        Holds(b, commands, rest) && |commands| < Le32(b, 16) && AllForMacOS(commands) && |rest| >= 8
        && !(8 <= Le32(rest, 4) <= |rest|)
    case NotMacOS =>
      |b| >= 32 && exists commands, rest ::
        Holds(b, commands, rest) && 0 < |commands| <= Le32(b, 16) && AllForMacOS(commands[..|commands| - 1])
        && !ForMacOS(commands[|commands| - 1])
    case NeedsNewerMacOS =>
      |b| >= 32 && exists commands, rest ::
        Holds(b, commands, rest) && |commands| == Le32(b, 16) && AllForMacOS(commands) && !RunsOn13(commands)
  }

  // ---------------------------------------------------------------------------------------------
  // The walk
  // ---------------------------------------------------------------------------------------------

  lemma Shifted(b: Buffer, offset: nat, k: nat)
    requires offset + k + 4 <= |b|
    ensures Le32(b[offset..], k) == Le32(b, offset + k)
  {}

  /** The command at the start of a buffer, when its size fits. */
  lemma CommandAtStart(b: Buffer) returns (c: Command)
    requires 8 <= |b| && 8 <= Le32(b, 4) <= |b|
    ensures Encodable(c) && c.number == Le32(b, 0) && c.content == b[8..Le32(b, 4)]
    ensures b == Encode(c) + b[Le32(b, 4)..]
  {
    var size := Le32(b, 4);
    c := Command(Le32(b, 0), b[8..size]);
    Le32Rewritten(b, 0);
    Le32Rewritten(b, 4);
    assert b[..size] == b[0..4] + b[4..8] + b[8..size];
  }

  /** The command at `offset`, when its size fits. */
  lemma CommandAt(b: Buffer, commands: seq<Command>, offset: nat) returns (c: Command)
    requires 32 <= offset && offset + 8 <= |b| && Holds(b, commands, b[offset..])
    requires 8 <= Le32(b, offset + 4) <= |b| - offset
    ensures c.number == Le32(b, offset) && c.content == b[offset + 8..offset + Le32(b, offset + 4)]
    ensures Holds(b, commands + [c], b[offset + Le32(b, offset + 4)..])
  {
    hide Le32, Encode, EncodeAll, Encodable;
    var size := Le32(b, offset + 4);
    Shifted(b, offset, 0);
    Shifted(b, offset, 4);
    c := CommandAtStart(b[offset..]);
    var rest := b[offset + size..];
    assert b[offset..][8..size] == b[offset + 8..offset + size] && b[offset..][size..] == rest;
    EncodeLast(commands, c);
    assert EncodeAll(commands) + (Encode(c) + rest) == EncodeAll(commands) + Encode(c) + rest;
  }

  /** If the buffer holds one command more, the walk finds it whole. */
  lemma NextCommand(b: Buffer, commands: seq<Command>, offset: nat, all: seq<Command>, rest: Buffer)
    requires 32 <= offset <= |b| && Holds(b, commands, b[offset..]) && Holds(b, all, rest) && |commands| < |all|
    ensures commands == all[..|commands|]
    ensures offset + 8 <= |b| && 8 <= Le32(b, offset + 4) <= |b| - offset
    ensures Le32(b, offset) == all[|commands|].number && Le32(b, offset + 4) == 8 + |all[|commands|].content|
    ensures b[offset + 8..offset + Le32(b, offset + 4)] == all[|commands|].content
  {
    hide Le32;
    SameCommands(commands, b[offset..], all, rest);
    var next := all[|commands|..];
    var c := next[0];
    assert c in next && b[offset..] == Encode(c) + (EncodeAll(next[1..]) + rest);
    ReadBack(c, EncodeAll(next[1..]) + rest);
    Shifted(b, offset, 0);
    Shifted(b, offset, 4);
    assert b[offset + 8..offset + 8 + |c.content|] == b[offset..][8..8 + |c.content|];
  }

  /** Whether the command read at `offset` is for macOS, and the minimum it gives. */
  lemma FieldsAt(b: Buffer, c: Command, offset: nat)
    requires offset + 8 + |c.content| <= |b| && b[offset + 8..offset + 8 + |c.content|] == c.content
    ensures !ForMacOS(c) <==> c.number == 0x32 && |c.content| >= 16 && Le32(b, offset + 8) != 1
    ensures MinimumOf(c) == if c.number == 0x32 && |c.content| >= 16 then Some(Le32(b, offset + 12))
                            else if c.number == 0x24 && |c.content| >= 8 then Some(Le32(b, offset + 8)) else None
  {
    hide Le32;
    var content := b[offset + 8..offset + 8 + |c.content|];
    if |c.content| >= 8 {
      Within(b, offset + 8, content, 0);
      Within(b, offset + 8, content, 4);
    }
  }

  lemma Within(b: Buffer, offset: nat, part: Buffer, k: nat)
    requires offset + |part| <= |b| && b[offset..offset + |part|] == part && k + 4 <= |part|
    ensures Le32(part, k) == Le32(b, offset + k)
  {
    assert forall i :: 0 <= i < |part| ==> part[i] == b[offset..offset + |part|][i];
  }

  lemma OneMore(commands: seq<Command>, c: Command)
    ensures Minimum(commands + [c]) == if MinimumOf(c).Some? then MinimumOf(c) else Minimum(commands)
    ensures AllForMacOS(commands) && ForMacOS(c) ==> AllForMacOS(commands + [c])
  {
    assert (commands + [c])[..|commands|] == commands;
  }

  /** Where the walk stands. */
  ghost predicate Walked(b: Buffer, commands: seq<Command>, offset: nat, minimum: Option<nat>) {
    && 32 <= offset <= |b| && Holds(b, commands, b[offset..])
    && minimum == Minimum(commands) && AllForMacOS(commands)
  }

  /** What the fields at `offset` make of the minimum. */
  function NextMinimum(b: Buffer, offset: nat, minimum: Option<nat>): Option<nat>
    requires offset + 8 <= |b| && 8 <= Le32(b, offset + 4) <= |b| - offset
  {
    var command, size := Le32(b, offset), Le32(b, offset + 4);
    if command == 0x32 && size >= 24 then Some(Le32(b, offset + 12))
    else if command == 0x24 && size >= 16 then Some(Le32(b, offset + 8)) else minimum
  }

  /** One command more; a wrong platform rules the library out. */
  lemma Turn(b: Buffer, commands: seq<Command>, offset: nat, minimum: Option<nat>) returns (c: Command)
    requires Walked(b, commands, offset, minimum) && |commands| < Le32(b, 16)
    requires offset + 8 <= |b| && 8 <= Le32(b, offset + 4) <= |b| - offset
    ensures var command, size := Le32(b, offset), Le32(b, offset + 4);
            if command == 0x32 && size >= 24 && Le32(b, offset + 8) != 1 then !Acceptable(b) && Explains(b, NotMacOS)
            else Walked(b, commands + [c], offset + size, NextMinimum(b, offset, minimum))
  {
    hide Le32, Holds, Minimum, MinimumOf, ForMacOS, Acceptable;
    c := CommandAt(b, commands, offset);
    FieldsAt(b, c, offset);
    OneMore(commands, c);
    if !ForMacOS(c) {
      WrongPlatform(b, commands, c, offset + Le32(b, offset + 4));
    }
  }

  lemma Refused(b: Buffer)
    ensures !IntelLibrary(b) ==> !Acceptable(b) && Explains(b, NotIntelLibrary)
    ensures IntelLibrary(b) ==> |b| >= 32 && Walked(b, [], 32, None)
  {
    if IntelLibrary(b) { assert [] + b[32..] == b[32..]; }
  }

  /** validateIntelMachO */
  method ValidateIntelMachO(b: Buffer) returns (verdict: Verdict)
    ensures verdict.Accepted? <==> Acceptable(b)
    ensures verdict.NotIntelLibrary? <==> !IntelLibrary(b)
    ensures Explains(b, verdict)
  {
    hide Le32, Holds, Minimum, AllForMacOS, IntelLibrary, Acceptable, Explains, Walked;
    Refused(b);
    if !IntelLibrary(b) { return NotIntelLibrary; }
    var offset: nat := 32;
    var minimum: Option<nat> := None;
    ghost var commands: seq<Command> := [];
    var i := 0;
    while i < Le32(b, 16)
      invariant 0 <= i <= Le32(b, 16) && i == |commands| && offset <= |b| && Walked(b, commands, offset, minimum)
    {
      if offset + 8 > |b| {
        TooShort(b, commands, offset, minimum);
        return Truncated;
      }
      var command, size := Le32(b, offset), Le32(b, offset + 4);
      if size < 8 || offset + size > |b| {
        TooShort(b, commands, offset, minimum);
        return InvalidCommand;
      }
      ghost var c := Turn(b, commands, offset, minimum);
      if command == 0x32 && size >= 24 {
        if Le32(b, offset + 8) != 1 { return NotMacOS; }
        minimum := Some(Le32(b, offset + 12));
      } else if command == 0x24 && size >= 16 {
        minimum := Some(Le32(b, offset + 8));
      }
      commands := commands + [c];
      offset := offset + size;
      i := i + 1;
    }
    WalkedAll(b, commands, offset, minimum);
    if minimum.None? || minimum.value > MACOS_13 { return NeedsNewerMacOS; }
    return Accepted;
  }

  /** A walk that cannot go on shows the announced commands are not there. */
  lemma TooShort(b: Buffer, commands: seq<Command>, offset: nat, minimum: Option<nat>)
    requires Walked(b, commands, offset, minimum) && |commands| < Le32(b, 16)
    requires offset + 8 > |b| || Le32(b, offset + 4) < 8 || offset + Le32(b, offset + 4) > |b|
    ensures !Acceptable(b) && Explains(b, if offset + 8 > |b| then Truncated else InvalidCommand)
  {
    if offset + 8 <= |b| { Shifted(b, offset, 4); }
    assert |b[offset..]| == |b| - offset;
    if Acceptable(b) {
      var all, rest :| Holds(b, all, rest) && |all| == Le32(b, 16) && RunsOn13(all);
      NextCommand(b, commands, offset, all, rest);
      assert false;
    }
  }

  lemma WrongPlatform(b: Buffer, commands: seq<Command>, c: Command, offset: nat)
    requires 32 <= offset <= |b| && Holds(b, commands + [c], b[offset..]) && |commands| < Le32(b, 16)
    requires AllForMacOS(commands) && !ForMacOS(c)
    ensures !Acceptable(b) && Explains(b, NotMacOS)
  {
    assert (commands + [c])[..|commands|] == commands && (commands + [c])[|commands|] == c;
    forall all, rest | Holds(b, all, rest) && |all| == Le32(b, 16) ensures !RunsOn13(all) {
      SameCommands(commands + [c], b[offset..], all, rest);
      assert all[|commands|] == (commands + [c])[|commands|];
    }
  }

  /** Commands that fill the announced count are the only ones. */
  lemma SameWalk(b: Buffer, commands: seq<Command>, rest: Buffer)
    requires IntelLibrary(b) && Holds(b, commands, rest) && |commands| == Le32(b, 16)
    ensures Acceptable(b) <==> RunsOn13(commands)
    ensures AllForMacOS(commands) && !RunsOn13(commands) ==> Explains(b, NeedsNewerMacOS)
  {
    if Acceptable(b) {
      var all, other :| Holds(b, all, other) && |all| == Le32(b, 16) && RunsOn13(all);
      SameCommands(commands, rest, all, other);
      assert all[..|commands|] == all;
    }
  }

  lemma WalkedAll(b: Buffer, commands: seq<Command>, offset: nat, minimum: Option<nat>)
    requires IntelLibrary(b) && Walked(b, commands, offset, minimum) && |commands| == Le32(b, 16)
    ensures minimum.Some? && minimum.value <= MACOS_13 <==> Acceptable(b)
    ensures Acceptable(b) ==> Explains(b, Accepted)
    ensures !Acceptable(b) ==> Explains(b, NeedsNewerMacOS)
  {
    SameWalk(b, commands, b[offset..]);
  }

  /** Four bytes spell a number, and only that number. */
  lemma NumberBytes(b: Buffer, offset: nat, n: nat)
    requires offset + 4 <= |b| && n < LIMIT
    ensures Le32(b, offset) == n <==> b[offset..offset + 4] == Le32Of(n)
  {
    Le32Rewritten(b, offset);
    if b[offset..offset + 4] == Le32Of(n) { Le32RoundTrip(n, b, offset); }
  }

  lemma HeaderNumbers()
    ensures Le32Of(0xFEEDFACF) == [0xCF, 0xFA, 0xED, 0xFE] && Le32Of(0x01000007) == [0x07, 0, 0, 0x01]
    ensures Le32Of(6) == [6, 0, 0, 0] && Le32Of(1) == [1, 0, 0, 0]
  {}

  lemma LowBytes(b3: Byte, b2: Byte, b1: Byte, b0: Byte)
    ensures Number(b3, b2, b1, b0) % 0x100_0000 == 3 <==> b0 == 3 && b1 == 0 && b2 == 0
  {
    var high: int := b3;
    var low := (b2 * 0x100 + b1) * 0x100 + b0;
    assert Number(b3, b2, b1, b0) == high * 0x100_0000 + low && 0 <= low < 0x100_0000;
  }

  /** The header is that of an x86_64 dylib, byte by byte; the last byte of the CPU subtype is free. */
  lemma HeaderExactly(b: Buffer)
    ensures IntelLibrary(b)
       <==> && |b| >= 32 && b[0..4] == [0xCF, 0xFA, 0xED, 0xFE] && b[4..8] == [0x07, 0, 0, 0x01]
            && b[8..11] == [3, 0, 0] && b[12..16] == [6, 0, 0, 0]
  {
    hide Number, Le32Of;
    HeaderNumbers();
    if |b| >= 32 {
      NumberBytes(b, 0, 0xFEEDFACF);
      NumberBytes(b, 4, 0x01000007);
      NumberBytes(b, 12, 6);
      LowBytes(b[11], b[10], b[9], b[8]);
      assert b[8..11] == [b[8], b[9], b[10]];
    }
  }

  /** The commands run on macOS 13.0 exactly if every build version names macOS, and the last build or minimum version
      among them is at most 13.0, that is 13 * 65536. */
  lemma RunsExactly(commands: seq<Command>)
    ensures RunsOn13(commands)
       <==> && (forall c :: c in commands && c.number == 0x32 && |c.content| >= 16 ==> c.content[..4] == [1, 0, 0, 0])
            && exists k ::
                 && 0 <= k < |commands| && GivesMinimum(commands[k])
                 && Le32(commands[k].content, if commands[k].number == 0x32 then 4 else 0) <= 851968
                 && forall j :: k < j < |commands| ==> !GivesMinimum(commands[j])
  {
    hide Le32, Number, Le32Of, Minimum;
    forall c | c in commands && c.number == 0x32 && |c.content| >= 16
      ensures ForMacOS(c) <==> c.content[..4] == [1, 0, 0, 0]
    {
      NumberBytes(c.content, 0, 1);
      HeaderNumbers();
    }
    LastMinimum(commands);
  }

  /** LC_BUILD_VERSION or LC_VERSION_MIN_MACOSX, long enough to hold its version. */
  ghost predicate GivesMinimum(c: Command) {
    (c.number == 0x32 && |c.content| >= 16) || (c.number == 0x24 && |c.content| >= 8)
  }

  lemma {:induction false} LastMinimum(commands: seq<Command>)
    ensures Minimum(commands).None? ==> forall j :: 0 <= j < |commands| ==> !GivesMinimum(commands[j])
    ensures Minimum(commands).Some? ==>
              exists k ::
                && 0 <= k < |commands| && GivesMinimum(commands[k])
                && Le32(commands[k].content, if commands[k].number == 0x32 then 4 else 0) == Minimum(commands).value
                && forall j :: k < j < |commands| ==> !GivesMinimum(commands[j])
  {
    if commands != [] {
      LastMinimum(commands[..|commands| - 1]);
      hide Le32;
    }
  }
}
