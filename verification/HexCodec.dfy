/** Bytes as space-separated hexadecimal pairs, and a serial number cut into eight groups. */
module HexCodec {
  import opened Basics

  const HEX := "0123456789ABCDEF"

  /** A C string ends at its first NUL. */
  function CString(s: string): (r: string)
    ensures r <= s && '\0' !in r
    ensures '\0' !in s ==> r == s
  {
    if s == "" || s[0] == '\0' then "" else [s[0]] + CString(s[1..])
  }

  lemma {:induction false} CStringEnds(s: string, rest: string)
    requires '\0' !in s
    ensures CString(s + "\0" + rest) == s
  {
    var t := s + "\0" + rest;
    if s != "" {
      CStringEnds(s[1..], rest);
      assert t[1..] == s[1..] + "\0" + rest;
      assert s == [s[0]] + s[1..];
    }
  }

  // ------------------------------------------------------------------- characters

  function IntToHexChar(x: nat): char
    requires x < 16
  {
    HEX[x]
  }

  function ToUpper(c: char): char {
    if 'a' <= c <= 'z' then c - 'a' + 'A' else c
  }

  /** Letters past F read on as digits above fifteen, other characters as zero. */
  function HexCharToInt(c: char): (r: nat)
    ensures r <= 35
  {
    var u := ToUpper(c);
    if '0' <= u <= '9' then (u - '0') as int
    else if 'A' <= u <= 'Z' then (u - 'A') as int + 10
    else 0
  }

  predicate HexDigit(c: char) {
    '0' <= c <= '9' || 'A' <= c <= 'F' || 'a' <= c <= 'f'
  }

  /** Every letter counts, in either case; what is no digit or letter reads as zero. */
  lemma CharValue(c: char)
    ensures '0' <= c <= '9' ==> HexCharToInt(c) == c as int - '0' as int
    ensures 'a' <= c <= 'z' ==> HexCharToInt(c) == c as int - 'a' as int + 10
    ensures 'A' <= c <= 'Z' ==> HexCharToInt(c) == c as int - 'A' as int + 10
    ensures !('0' <= c <= '9' || 'a' <= c <= 'z' || 'A' <= c <= 'Z') ==> HexCharToInt(c) == 0
  {
  }

  lemma DigitRoundTrip(x: nat)
    requires x < 16
    ensures HexCharToInt(IntToHexChar(x)) == x && IntToHexChar(x) != ' ' && IntToHexChar(x) != '\0'
  {
  }

  lemma CharRoundTrip(c: char)
    requires HexDigit(c)
    ensures HexCharToInt(c) < 16 && IntToHexChar(HexCharToInt(c)) == ToUpper(c)
  {
    var u := ToUpper(c);
    if '0' <= u <= '9' {
      assert HEX[(u - '0') as int] == u;
    } else {
      assert HEX[(u - 'A') as int + 10] == u;
    }
  }

  // --------------------------------------------------------------------- printing

  function ByteText(b: byte): (t: string)
    ensures |t| == 2
  {
    [IntToHexChar(b / 16), IntToHexChar(b % 16)]
  }

  function BytesToHex(bs: seq<byte>): string {
    if bs == [] then ""
    else if |bs| == 1 then ByteText(bs[0])
    else ByteText(bs[0]) + " " + BytesToHex(bs[1..])
  }

  lemma TextOf(b: byte)
    ensures ByteText(b) == [IntToHexChar(b / 16), IntToHexChar(b % 16)]
  {
  }

  method BytesToHexString(from: array<byte>, size: nat) returns (str: string)
    requires size <= from.Length
    ensures str == BytesToHex(from[..size])
  {
    hide ByteText, IntToHexChar;
    ghost var bs := from[..size];
    str := "";
    var i := 0;
    while i < size
      invariant 0 <= i <= size && BytesToHex(bs) == str + BytesToHex(bs[i..])
    {
      var t := from[i];
      assert bs[i..][0] == t && bs[i..][1..] == bs[i + 1..];
      ghost var before := str;
      str := str + [IntToHexChar(t / 16)];
      str := str + [IntToHexChar(t % 16)];
      assert str == before + ByteText(t) by { TextOf(t); }
      if i != size - 1 {
        str := str + " ";
        assert before + (ByteText(t) + " " + BytesToHex(bs[i + 1..])) == str + BytesToHex(bs[i + 1..]);
      }
      i := i + 1;
    }
  }

  // ---------------------------------------------------------------------- parsing

  /** Position of the first space from `from` on, or the length. */
  function Find(s: string, from: nat): (k: nat)
    requires from <= |s|
    ensures from <= k <= |s| && (k < |s| ==> s[k] == ' ') && ' ' !in s[from..k]
    decreases |s| - from
  {
    if from == |s| || s[from] == ' ' then from
    else
      var k := Find(s, from + 1);
      assert s[from..k] == [s[from]] + s[from + 1..k];
      k
  }

  /** The parts between spaces; a last part that is empty does not count. */
  function Groups(s: string): seq<string>
    decreases |s|
  {
    var k := Find(s, 0);
    if k < |s| then [s[..k]] + Groups(s[k + 1..]) else if s == "" then [] else [s]
  }

  /** Reading one place past the end of a string gives its terminator. */
  function CharAt(s: string, i: nat): char
    requires i <= |s|
  {
    if i < |s| then s[i] else '\0'
  }

  function GroupByte(g: string): byte
    requires g != ""
  {
    (HexCharToInt(CharAt(g, 0)) * 16 + HexCharToInt(CharAt(g, 1))) % 256
  }

  /** None when some group is empty, since its second character does not exist. */
  function GroupBytes(gs: seq<string>): (r: Option<seq<byte>>)
    ensures r.Some? <==> "" !in gs
    ensures r.Some? ==> |r.value| == |gs| && forall i :: 0 <= i < |gs| ==> r.value[i] == GroupByte(gs[i])
  {
    if gs == [] then Some([])
    else if gs[0] == "" then None
    else
      match GroupBytes(gs[1..])
      case None => None
      case Some(rest) => Some([GroupByte(gs[0])] + rest)
  }

  function HexToBytes(s: string): Option<seq<byte>> {
    GroupBytes(Groups(s))
  }

  lemma {:induction false} FindIsFirst(s: string, from: nat, k: nat)
    requires from <= k < |s| && s[k] == ' ' && ' ' !in s[from..k]
    ensures Find(s, from) == k
    decreases k - from
  {
    if from < k {
      assert s[from] == s[from..k][0] && s[from + 1..k] == s[from..k][1..];
      FindIsFirst(s, from + 1, k);
    }
  }

  lemma GroupFirst(g: string, rest: string)
    requires ' ' !in g
    ensures Groups(g + " " + rest) == [g] + Groups(rest)
  {
    var s := g + " " + rest;
    assert s[0..|g|] == g;
    FindIsFirst(s, 0, |g|);
    assert s[|g| + 1..] == rest && s[..|g|] == g;
  }

  lemma GroupLast(g: string)
    requires ' ' !in g && g != ""
    ensures Groups(g) == [g]
  {
  }

  lemma ByteTextParses(b: byte)
    ensures GroupByte(ByteText(b)) == b && ' ' !in ByteText(b) && '\0' !in ByteText(b)
  {
    DigitRoundTrip(b / 16);
    DigitRoundTrip(b % 16);
  }

  function Texts(bs: seq<byte>): seq<string> {
    seq(|bs|, i requires 0 <= i < |bs| => ByteText(bs[i]))
  }

  lemma {:induction false} PrintedGroups(bs: seq<byte>)
    ensures Groups(BytesToHex(bs)) == Texts(bs)
  {
    hide Groups, ByteText;
    if bs == [] {
      assert Groups("") == [] by { NoMoreSpaces("", 0); }
    } else {
      ByteTextParses(bs[0]);
      if |bs| == 1 {
        GroupLast(ByteText(bs[0]));
      } else {
        PrintedGroups(bs[1..]);
        GroupFirst(ByteText(bs[0]), BytesToHex(bs[1..]));
        assert Texts(bs) == [ByteText(bs[0])] + Texts(bs[1..]);
      }
    }
  }

  /** The bytes a list of texts stands for. */
  lemma TextsParse(bs: seq<byte>)
    ensures GroupBytes(Texts(bs)) == Some(bs)
  {
    hide ByteText, GroupByte;
    forall i | 0 <= i < |bs|
      ensures Texts(bs)[i] != "" && GroupByte(Texts(bs)[i]) == bs[i]
    {
      ByteTextParses(bs[i]);
    }
    var r := GroupBytes(Texts(bs));
    assert r.Some? && r.value == bs;
  }

  /** Printing and parsing give every byte string back. */
  lemma HexRoundTrip(bs: seq<byte>)
    ensures HexToBytes(BytesToHex(bs)) == Some(bs)
  {
    PrintedGroups(bs);
    TextsParse(bs);
  }

  lemma {:induction false} GroupsFit(s: string)
    ensures |Groups(s)| <= |s|
    decreases |s|
  {
    var k := Find(s, 0);
    if k < |s| {
      GroupsFit(s[k + 1..]);
    }
  }

  method SplitAtSpaces(str: string) returns (vec: seq<string>)
    ensures vec == Groups(str)
  {
    hide Groups;
    vec := [];
    var prevPos := 0;
    var currPos := Find(str, prevPos);
    assert str[0..] == str;
    while currPos < |str|
      invariant prevPos <= |str| && currPos == Find(str, prevPos)
      invariant Groups(str) == vec + Groups(str[prevPos..])
      decreases |str| - prevPos
    {
      var b := str[prevPos..currPos];
      NextGroup(str, prevPos, currPos);
      assert vec + ([b] + Groups(str[currPos + 1..])) == vec + [b] + Groups(str[currPos + 1..]);
      vec := vec + [b];
      prevPos := currPos + 1;
      currPos := Find(str, prevPos);
    }
    NoMoreSpaces(str, prevPos);
    if prevPos < |str| {
      vec := vec + [str[prevPos..]];
    }
  }

  /** None when the text has an empty group; `to` must hold a byte for each group. */
  method HexStringToBytes(str: string, to: array<byte>) returns (size: Option<nat>)
    requires |Groups(str)| <= to.Length
    modifies to
    ensures size.Some? <==> HexToBytes(str).Some?
    ensures size.Some? ==> size.value == |Groups(str)| && to[..size.value] == HexToBytes(str).value
    ensures size.Some? ==> to[size.value..] == old(to[size.value..])
  {
    hide Groups, GroupByte, HexCharToInt;
    var vec := SplitAtSpaces(str);
    var i := 0;
    while i < |vec|
      invariant 0 <= i <= |vec| && forall j :: 0 <= j < i ==> vec[j] != "" && to[j] == GroupByte(vec[j])
      invariant to[|vec|..] == old(to[|vec|..])
    {
      if vec[i] == "" {
        return None;
      }
      to[i] := ByteOfGroup(vec[i]);
      i := i + 1;
    }
    assert "" !in vec;
    size := Some(|vec|);
  }

  method ByteOfGroup(g: string) returns (b: byte)
    requires g != ""
    ensures b == GroupByte(g)
  {
    var high := HexCharToInt(CharAt(g, 0));
    var low := HexCharToInt(CharAt(g, 1));
    b := (high * 16 + low) % 256;
  }

  lemma FindInTail(s: string, from: nat)
    requires from <= |s|
    ensures Find(s[from..], 0) == Find(s, from) - from
  {
    var k := Find(s, from);
    var t := s[from..];
    assert t[0..k - from] == s[from..k];
    if k < |s| {
      FindIsFirst(t, 0, k - from);
    }
  }

  lemma NextGroup(s: string, from: nat, k: nat)
    requires from <= k < |s| && k == Find(s, from)
    ensures Groups(s[from..]) == [s[from..k]] + Groups(s[k + 1..])
  {
    hide Find;
    FindInTail(s, from);
    assert s[from..][..k - from] == s[from..k] && s[from..][k - from + 1..] == s[k + 1..];
  }

  lemma NoMoreSpaces(s: string, from: nat)
    requires from <= |s| && Find(s, from) == |s|
    ensures Groups(s[from..]) == if from < |s| then [s[from..]] else []
  {
    FindInTail(s, from);
  }

  // --------------------------------------------------------------- a serial number

  /** Each group followed by a space. */
  function Terminated(gs: seq<string>): string {
    if gs == [] then "" else gs[0] + " " + Terminated(gs[1..])
  }

  lemma {:induction false} TerminatedAppend(gs: seq<string>, g: string)
    ensures Terminated(gs + [g]) == Terminated(gs) + g + " "
  {
    if gs == [] {
      assert [g][1..] == [];
    } else {
      TerminatedAppend(gs[1..], g);
      assert (gs + [g])[1..] == gs[1..] + [g];
    }
  }

  lemma {:induction false} ConcatAppend(gs: seq<string>, g: string)
    ensures Concat(gs + [g]) == Concat(gs) + g
  {
    if gs == [] {
      assert [g][1..] == [];
    } else {
      ConcatAppend(gs[1..], g);
      assert (gs + [g])[1..] == gs[1..] + [g];
    }
  }

  lemma {:induction false} GroupsOfTerminated(gs: seq<string>)
    requires forall i :: 0 <= i < |gs| ==> ' ' !in gs[i]
    ensures Groups(Terminated(gs)) == gs
  {
    if gs != [] {
      GroupsOfTerminated(gs[1..]);
      GroupFirst(gs[0], Terminated(gs[1..]));
    }
  }

  lemma {:induction false} TerminatedKeepsOut(gs: seq<string>, c: char)
    requires c != ' ' && forall i :: 0 <= i < |gs| ==> c !in gs[i]
    ensures c !in Terminated(gs)
  {
    if gs != [] {
      TerminatedKeepsOut(gs[1..], c);
    }
  }

  /** Spaces within the groups only add groups. */
  lemma {:induction false} GroupsAtLeast(gs: seq<string>)
    ensures |Groups(Terminated(gs))| >= |gs|
  {
    if gs != [] {
      GroupsAtLeast(gs[1..]);
      GroupsOfPrefix(gs[0], Terminated(gs[1..]));
    }
  }

  lemma {:induction false} GroupsOfPrefix(g: string, rest: string)
    ensures |Groups(g + " " + rest)| >= 1 + |Groups(rest)|
    decreases |g|
  {
    hide Groups;
    var k := Find(g, 0);
    if k == |g| {
      assert g[0..k] == g;
      GroupFirst(g, rest);
    } else {
      assert g[0..k] == g[..k];
      GroupsOfPrefix(g[k + 1..], rest);
      GroupFirst(g[..k], g[k + 1..] + " " + rest);
      assert g + " " + rest == g[..k] + " " + (g[k + 1..] + " " + rest);
    }
  }

  /** Eight groups, first of one character each and then of two. */
  function SerialGroups(input: string): (gs: seq<string>)
    requires 8 <= |input| <= 16
    ensures |gs| == 8
  {
    var n1 := 16 - |input|;
    seq(8, i requires 0 <= i < 8 => if i < n1 then [input[i]] else input[n1 + 2 * (i - n1)..n1 + 2 * (i - n1) + 2])
  }

  lemma {:induction false} SerialPrefix(input: string, i: nat)
    requires 8 <= |input| <= 16 && i <= 8
    ensures Concat(SerialGroups(input)[..i]) == input[..if i <= 16 - |input| then i else 2 * i - (16 - |input|)]
  {
    hide SerialGroups, Concat;
    var gs := SerialGroups(input);
    if i == 0 {
      assert gs[..0] == [];
      ConcatNone<char>();
    } else {
      SerialPrefix(input, i - 1);
      GroupAt(input, i - 1);
      assert gs[..i] == gs[..i - 1] + [gs[i - 1]];
      ConcatAppend(gs[..i - 1], gs[i - 1]);
      OneMoreGroup(input, i - 1, gs[i - 1]);
    }
  }

  lemma OneMoreGroup(input: string, i: nat, g: string)
    requires 8 <= |input| <= 16 && i < 8
    requires var n1 := 16 - |input|; g == if i < n1 then [input[i]] else [input[2 * i - n1], input[2 * i - n1 + 1]]
    ensures var n1 := 16 - |input|;
      input[..if i < n1 then i else 2 * i - n1] + g == input[..if i < n1 then i + 1 else 2 * i + 2 - n1]
  {
  }

  lemma SerialGroupsWithout(input: string, c: char)
    requires 8 <= |input| <= 16 && c !in input
    ensures forall i :: 0 <= i < 8 ==> c !in SerialGroups(input)[i]
  {
  }

  /** A serial without spaces is cut into exactly eight groups that make it up again. */
  lemma SerialIsCut(input: string)
    requires 8 <= |input| <= 16 && ' ' !in input
    ensures Groups(Terminated(SerialGroups(input))) == SerialGroups(input)
    ensures Concat(SerialGroups(input)) == input
    ensures forall g :: g in SerialGroups(input) ==> 1 <= |g| <= 2
  {
    var gs := SerialGroups(input);
    SerialGroupsWithout(input, ' ');
    GroupsOfTerminated(gs);
    SerialPrefix(input, 8);
    assert gs[..8] == gs && input[..|input|] == input;
  }

  /** What the first i groups of a serial look like when wrapped. */
  function Wrapped(input: string, i: nat): string
    requires i <= 8
  {
    if 8 <= |input| <= 16 then Terminated(SerialGroups(input)[..i]) else ""
  }

  /** None when a character past either end of the input is asked for. */
  method WrapString(input: string) returns (r: Option<string>)
    requires |input| < 0x8000_0000
    ensures r.Some? <==> 8 <= |input| <= 16
    ensures r.Some? ==> r.value == CString(Terminated(SerialGroups(input)))
  {
    var n1 := 16 - |input|;
    var p := new char[256];
    var ok := WriteSingles(input, n1, p);
    if !ok {
      return None;
    }
    ok := WritePairs(input, n1, p);
    if !ok {
      return None;
    }
    var k := 2 * n1 + 3 * (8 - n1);
    p[k] := '\0';
    assert SerialGroups(input)[..8] == SerialGroups(input);
    assert p[..][..k] == p[..k];
    CStringOfBuffer(p[..], k);
    r := Some(CString(p[..]));
  }

  method WriteSingles(input: string, n1: int, p: array<char>) returns (ok: bool)
    requires n1 == 16 - |input| && p.Length == 256
    modifies p
    ensures ok <==> n1 <= |input|
    ensures ok && n1 >= 0 ==> p[..2 * n1] == Wrapped(input, n1)
  {
    hide Wrapped;
    var k, i := 0, 0;
    if 8 <= |input| <= 16 {
      NoGroups(input);
    }
    while i < n1
      invariant 0 <= i <= |input| && k == 2 * i && i <= 8
      invariant i <= n1 || i == 0
      invariant 8 <= |input| <= 16 ==> p[..k] == Wrapped(input, i)
    {
      if i >= |input| {
        return false;
      }
      ghost var done := p[..k];
      p[k] := input[i];
      p[k + 1] := ' ';
      k := k + 2;
      assert p[..k] == done + [input[i], ' '];
      if 8 <= |input| <= 16 {
        GroupAdded(input, i);
      }
      i := i + 1;
    }
    ok := true;
  }

  method WritePairs(input: string, n1: int, p: array<char>) returns (ok: bool)
    requires n1 == 16 - |input| && p.Length == 256 && n1 <= 8
    requires n1 >= 0 ==> p[..2 * n1] == Wrapped(input, n1)
    modifies p
    ensures ok <==> n1 >= 0
    ensures ok ==> p[..2 * n1 + 3 * (8 - n1)] == Wrapped(input, 8)
  {
    hide Wrapped;
    var i, k := n1, if n1 >= 0 then 2 * n1 else 0;
    while i < 8
      invariant n1 <= i <= 8 && (n1 < 0 ==> i == n1)
      invariant n1 >= 0 ==> k == 2 * n1 + 3 * (i - n1) && p[..k] == Wrapped(input, i)
    {
      var at := n1 + 2 * (i - n1);
      if !(0 <= at < |input|) {
        return false;
      }
      ghost var done := p[..k];
      p[k] := input[at];
      if at + 1 >= |input| {
        return false;
      }
      p[k + 1] := input[at + 1];
      p[k + 2] := ' ';
      k := k + 3;
      assert p[..k] == done + [input[at], input[at + 1], ' '];
      GroupAdded(input, i);
      i := i + 1;
    }
    ok := true;
  }

  lemma GroupAdded(input: string, i: nat)
    requires 8 <= |input| <= 16 && i < 8
    ensures var n1, done := 16 - |input|, Wrapped(input, i);
      Wrapped(input, i + 1)
      == if i < n1 then done + [input[i], ' '] else done + [input[2 * i - n1], input[2 * i - n1 + 1], ' ']
  {
    GroupAt(input, i);
    hide SerialGroups, Terminated;
    var gs := SerialGroups(input);
    TerminatedAppend(gs[..i], gs[i]);
    assert gs[..i + 1] == gs[..i] + [gs[i]];
  }

  lemma GroupAt(input: string, i: nat)
    requires 8 <= |input| <= 16 && i < 8
    ensures var n1 := 16 - |input|;
      SerialGroups(input)[i] == if i < n1 then [input[i]] else [input[2 * i - n1], input[2 * i - n1 + 1]]
  {
  }

  lemma NoGroups(input: string)
    requires 8 <= |input| <= 16
    ensures Wrapped(input, 0) == ""
  {
  }

  /** Up to a terminator, only what stands before it matters. */
  lemma {:induction false} CStringOfBuffer(p: string, k: nat)
    requires k < |p| && p[k] == '\0'
    ensures CString(p) == CString(p[..k])
  {
    hide CString;
    CStringUnfolds(p);
    CStringUnfolds(p[..k]);
    if k > 0 && p[0] != '\0' {
      CStringOfBuffer(p[1..], k - 1);
      assert p[1..][..k - 1] == p[..k][1..];
    }
  }

  lemma CStringUnfolds(s: string)
    ensures CString(s) == if s == "" || s[0] == '\0' then "" else [s[0]] + CString(s[1..])
  {
  }
}
