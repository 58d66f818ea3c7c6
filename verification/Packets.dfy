/** The packet layer of gdb.c: framing, checksums, resynchronisation and acknowledgement
    (GDB manual, Appendix E.1). */
module Packets {
  import opened Words
  import opened HexText
  import opened DebugPort

  const BUFFER_SIZE := 1024

  /** The sum of the characters modulo 256. */
  function Checksum(s: string): byte {
    if s == "" then 0 else (Checksum(s[..|s| - 1]) + s[|s| - 1] as int) % 0x100
  }

  /** The sum of the characters. */
  function Sum(s: string): nat {
    if s == "" then 0 else s[0] as int + Sum(s[1..])
  }

  lemma {:induction false} SumStep(s: string, c: char)
    ensures Sum(s + [c]) == Sum(s) + c as int
  {
    if s == "" {
      assert Sum([c]) == c as int + Sum([c][1..]);
    } else {
      SumStep(s[1..], c);
      assert (s + [c])[1..] == s[1..] + [c];
    }
  }

  lemma AddModulo(n: nat, c: nat)
    ensures (n % 256 + c) % 256 == (n + c) % 256
  {
    assert n + c == n % 256 + c + 256 * (n / 256);
  }

  /** The running sum is the sum of all characters modulo 256 (GDB manual, Appendix E.1). */
  lemma {:induction false} ChecksumIsSum(s: string)
    ensures Checksum(s) == Sum(s) % 256
  {
    if s != "" {
      var n := |s| - 1;
      assert Checksum(s) == (Checksum(s[..n]) + s[n] as int) % 0x100;
      hide Checksum, Sum;
      ChecksumIsSum(s[..n]);
      SumStep(s[..n], s[n]);
      assert s == s[..n] + [s[n]];
      AddModulo(Sum(s[..n]), s[n] as int);
    }
  }

  /** The checksum two received characters stand for; a bad digit counts as -1. */
  function Claimed(c1: char, c2: char): byte {
    (HexValue(c1) * 16 + HexValue(c2)) % 0x100
  }

  /** What `getpacket` does on the input it will ever see: it never returns, or it returns the text
      from `start` of its buffer, leaving `rest` unread and `out` as all that has been sent. */
  datatype Reception = Waiting | Delivered(buf: string, start: nat, rest: string, out: string)

  /** The end of a good packet: acknowledge it, and answer and skip a sequence id. */
  function Accept(buf: string, rest: string, out: string): Reception
    requires |buf| == BUFFER_SIZE
  {
    if buf[2] == ':' then Delivered(buf, 3, rest, out + "+" + [buf[0], buf[1]])
    else Delivered(buf, 0, rest, out + "+")
  }

  /** A delivery reads at least one character, and the buffer's last character stays a terminator. */
  predicate ReceptionOk(r: Reception, buf: string, input: string)
    requires |buf| == BUFFER_SIZE
  {
    r.Delivered? ==>
      && |r.buf| == BUFFER_SIZE && r.start <= 3 && |r.rest| < |input|
      && (buf[BUFFER_SIZE - 1] == '\0' ==> r.buf[BUFFER_SIZE - 1] == '\0')
  }

  function Hunt(buf: string, input: string, out: string): (r: Reception)
    requires |buf| == BUFFER_SIZE
    ensures ReceptionOk(r, buf, input)
    decreases |input|, 0
  {
    if input == "" then Waiting
    else if input[0] == '$' then Body(buf, 0, input[1..], out)
    else Hunt(buf, input[1..], out)
  }

  function Body(buf: string, count: nat, input: string, out: string): (r: Reception)
    requires |buf| == BUFFER_SIZE && count < BUFFER_SIZE
    ensures ReceptionOk(r, buf, input)
    decreases |input|, 1
  {
    if count == BUFFER_SIZE - 1 then Hunt(buf[count := '\0'], input, out)
    else if input == "" then Waiting
    else if input[0] == '$' then Body(buf, 0, input[1..], out)
    else if input[0] == '#' then Check(buf[count := '\0'], count, input[1..], out)
    else Body(buf[count := input[0]], count + 1, input[1..], out)
  }

  function Check(buf: string, count: nat, input: string, out: string): (r: Reception)
    requires |buf| == BUFFER_SIZE && count < BUFFER_SIZE
    ensures ReceptionOk(r, buf, input)
    decreases |input|, 2
  {
    if |input| < 2 then Waiting
    else if Checksum(buf[..count]) != Claimed(input[0], input[1]) then Hunt(buf, input[2..], out + "-")
    else Accept(buf, input[2..], out)
  }

  // ---------------------------------------------------------------- the grammar

  predicate Clean(p: string) {
    forall i :: 0 <= i < |p| ==> p[i] != '$' && p[i] != '#'
  }

  /** What may precede the first good frame: a stray character, a frame cut short by the next '$',
      an overlong frame, a frame whose checksum is wrong. */
  datatype Token = Noise(c: char) | Abandoned(p: string) | Overlong(p: string) | Corrupt(p: string, c1: char, c2: char)

  predicate TokenOk(t: Token) {
    match t
    case Noise(c) => c != '$'
    case Abandoned(p) => Clean(p) && |p| < BUFFER_SIZE - 1
    case Overlong(p) => Clean(p) && |p| == BUFFER_SIZE - 1
    case Corrupt(p, c1, c2) => Clean(p) && |p| < BUFFER_SIZE - 1 && Checksum(p) != Claimed(c1, c2)
  }

  function TokenText(t: Token): string {
    match t
    case Noise(c) => [c]
    case Abandoned(p) => "$" + p
    case Overlong(p) => "$" + p
    case Corrupt(p, c1, c2) => "$" + p + "#" + [c1, c2]
  }

  /** Every token is well formed and what follows an abandoned frame starts a frame. */
  predicate JunkOk(ts: seq<Token>) {
    && (forall i :: 0 <= i < |ts| ==> TokenOk(ts[i]))
    && (forall i :: 0 <= i < |ts| - 1 && ts[i].Abandoned? ==> !ts[i + 1].Noise?)
  }

  lemma JunkCons(t: Token, ts: seq<Token>)
    requires TokenOk(t) && JunkOk(ts) && (t.Abandoned? && ts != [] ==> !ts[0].Noise?)
    ensures JunkOk([t] + ts)
  {
    var us := [t] + ts;
    forall i | 0 <= i < |us|
      ensures TokenOk(us[i]) && (i < |us| - 1 && us[i].Abandoned? ==> !us[i + 1].Noise?)
    {
      if i > 0 {
        assert us[i] == ts[i - 1];
      }
    }
  }

  function JunkText(ts: seq<Token>): string {
    if ts == [] then "" else TokenText(ts[0]) + JunkText(ts[1..])
  }

  /** One '-' for each wrong checksum. */
  function Complaint(t: Token): string {
    if t.Corrupt? then "-" else ""
  }

  function Complaints(ts: seq<Token>): string {
    if ts == [] then "" else Complaint(ts[0]) + Complaints(ts[1..])
  }

  /** The receive buffer after a token: what later, shorter packets leave of it stays readable. */
  function BufferAfterToken(buf: string, t: Token): (b: string)
    requires |buf| == BUFFER_SIZE && TokenOk(t)
    ensures |b| == BUFFER_SIZE
  {
    match t
    case Noise(_) => buf
    case Abandoned(p) => Splice(buf, 0, p)
    case Overlong(p) => StrCpy(buf, p)
    case Corrupt(p, _, _) => StrCpy(buf, p)
  }

  function BufferAfter(buf: string, ts: seq<Token>): (b: string)
    requires |buf| == BUFFER_SIZE && (forall i :: 0 <= i < |ts| ==> TokenOk(ts[i]))
    ensures |b| == BUFFER_SIZE
    decreases |ts|
  {
    if ts == [] then buf else BufferAfter(BufferAfterToken(buf, ts[0]), ts[1..])
  }

  /** A reading of an input as junk, one good frame and a rest. */
  datatype Reading = Reading(junk: seq<Token>, payload: string, c1: char, c2: char, rest: string)

  function FrameText(payload: string, c1: char, c2: char): string {
    "$" + payload + "#" + [c1, c2]
  }

  predicate Reads(r: Reading, input: string) {
    && JunkOk(r.junk) && Clean(r.payload) && |r.payload| < BUFFER_SIZE - 1
    && Checksum(r.payload) == Claimed(r.c1, r.c2)
    && input == JunkText(r.junk) + (FrameText(r.payload, r.c1, r.c2) + r.rest)
  }

  function Outcome(r: Reading, buf: string, out: string): Reception
    requires |buf| == BUFFER_SIZE && JunkOk(r.junk) && |r.payload| < BUFFER_SIZE - 1
  {
    Accept(StrCpy(BufferAfter(buf, r.junk), r.payload), r.rest, out + Complaints(r.junk))
  }

  // ---------------------------------------------------------------- every reading is followed

  lemma {:induction false} BodyRuns(buf: string, count: nat, p: string, tail: string, out: string)
    requires |buf| == BUFFER_SIZE && count + |p| < BUFFER_SIZE && Clean(p)
    ensures Body(buf, count, p + tail, out) == Body(Splice(buf, count, p), count + |p|, tail, out)
    decreases |p|
  {
    if p == "" {
      assert p + tail == tail;
      assert Splice(buf, count, p) == buf;
    } else {
      var b1 := buf[count := p[0]];
      assert (p + tail)[1..] == p[1..] + tail;
      BodyRuns(b1, count + 1, p[1..], tail, out);
      assert Splice(b1, count + 1, p[1..]) == Splice(buf, count, p);
    }
  }

  lemma FrameRuns(buf: string, p: string, tail: string, out: string)
    requires |buf| == BUFFER_SIZE && |p| < BUFFER_SIZE && Clean(p)
    ensures Hunt(buf, "$" + p + tail, out) == Body(Splice(buf, 0, p), |p|, tail, out)
  {
    var input := "$" + p + tail;
    assert input[0] == '$' && input[1..] == p + tail;
    BodyRuns(buf, 0, p, tail, out);
  }

  lemma Terminated(buf: string, p: string)
    requires |buf| == BUFFER_SIZE && |p| < BUFFER_SIZE
    ensures Splice(buf, 0, p)[|p| := '\0'] == StrCpy(buf, p)
    ensures StrCpy(buf, p)[..|p|] == p
  {
  }

  lemma CheckedFrame(buf: string, p: string, c1: char, c2: char, tail: string, out: string)
    requires |buf| == BUFFER_SIZE && |p| < BUFFER_SIZE - 1 && Clean(p)
    ensures Hunt(buf, FrameText(p, c1, c2) + tail, out) ==
            if Checksum(p) == Claimed(c1, c2) then Accept(StrCpy(buf, p), tail, out)
            else Hunt(StrCpy(buf, p), tail, out + "-")
  {
    var t := "#" + [c1, c2] + tail;
    assert FrameText(p, c1, c2) + tail == "$" + p + t;
    FrameRuns(buf, p, t, out);
    Terminated(buf, p);
    assert t[0] == '#' && t[1..] == [c1, c2] + tail && t[1..][2..] == tail;
  }

  /** A frame of up to 1022 characters is accepted exactly if the two characters behind it stand for the sum
      of its characters modulo 256, a bad digit counting as -1; otherwise it is answered with '-' and the hunt
      goes on behind it. */
  lemma FrameIsJudged(buf: string, p: string, c1: char, c2: char, rest: string, out: string)
    requires |buf| == 1024 && |p| <= 1022 && Clean(p)
    ensures Hunt(buf, "$" + p + "#" + [c1, c2] + rest, out) ==
            if (16 * HexValue(c1) + HexValue(c2) - Sum(p)) % 256 == 0 then Accept(StrCpy(buf, p), rest, out)
            else Hunt(StrCpy(buf, p), rest, out + "-")
  {
    CheckedFrame(buf, p, c1, c2, rest, out);
    ChecksumIsSum(p);
    var v, n := 16 * HexValue(c1) + HexValue(c2), Sum(p);
    SameModulo(v, n);
    assert "$" + p + "#" + [c1, c2] == FrameText(p, c1, c2);
    hide Hunt, Accept, StrCpy, Sum, Checksum, HexValue, Clean, FrameText;
  }

  lemma SameModulo(v: int, n: int)
    ensures (v - n) % 256 == 0 <==> v % 256 == n % 256
  {
    var qv, qn, q := v / 256, n / 256, (v - n) / 256;
    assert v == 256 * qv + v % 256 && n == 256 * qn + n % 256 && v - n == 256 * q + (v - n) % 256;
  }

  lemma TokenRuns(buf: string, t: Token, tail: string, out: string)
    requires |buf| == BUFFER_SIZE && TokenOk(t)
    requires t.Abandoned? ==> tail != "" && tail[0] == '$'
    ensures Hunt(buf, TokenText(t) + tail, out) ==
            Hunt(BufferAfterToken(buf, t), tail, out + Complaint(t))
  {
    assert out + "" == out;
    match t
    case Noise(c) =>
      assert ([c] + tail)[1..] == tail;
    case Abandoned(p) =>
      FrameRuns(buf, p, tail, out);
    case Overlong(p) =>
      FrameRuns(buf, p, tail, out);
      Terminated(buf, p);
    case Corrupt(p, c1, c2) =>
      CheckedFrame(buf, p, c1, c2, tail, out);
  }

  lemma {:induction false} ReadingIsFollowed(r: Reading, input: string, buf: string, out: string)
    requires |buf| == BUFFER_SIZE && Reads(r, input)
    ensures Hunt(buf, input, out) == Outcome(r, buf, out)
    decreases |r.junk|
  {
    var frame := FrameText(r.payload, r.c1, r.c2) + r.rest;
    if r.junk == [] {
      assert input == frame;
      assert out + "" == out;
      CheckedFrame(buf, r.payload, r.c1, r.c2, r.rest, out);
    } else {
      var t, more := r.junk[0], r.(junk := r.junk[1..]);
      var tail := JunkText(more.junk) + frame;
      Assoc(TokenText(t), JunkText(more.junk), frame);
      assert forall i :: 0 <= i < |more.junk| ==> more.junk[i] == r.junk[i + 1];
      assert t.Abandoned? && more.junk != [] ==> tail[0] == TokenText(more.junk[0])[0];
      TokenRuns(buf, t, tail, out);
      ReadingIsFollowed(more, tail, BufferAfterToken(buf, t), out + Complaint(t));
      Assoc(out, Complaint(t), Complaints(more.junk));
    }
  }

  // ---------------------------------------------------------------- every delivery has a reading

  function Before(t: Token, r: Reading): Reading {
    r.(junk := [t] + r.junk)
  }

  lemma ReadsBefore(t: Token, r: Reading, input: string, whole: string)
    requires TokenOk(t) && Reads(r, input) && TokenText(t) + input == whole
    requires t.Abandoned? ==> input != "" && input[0] == '$'
    ensures Reads(Before(t, r), whole)
  {
    var q := Before(t, r);
    var frame := FrameText(r.payload, r.c1, r.c2) + r.rest;
    assert q.junk[0] == t && q.junk[1..] == r.junk;
    Assoc(TokenText(t), JunkText(r.junk), frame);
    assert r.junk != [] ==> input[0] == TokenText(r.junk[0])[0];
    JunkCons(t, r.junk);
  }

  lemma Extend(buf: string, p: string, c: char)
    requires |buf| == BUFFER_SIZE && Clean(p) && |p| < BUFFER_SIZE && buf[..|p|] == p && c != '$' && c != '#'
    ensures Clean(p + [c]) && buf[|p| := c][..|p| + 1] == p + [c]
  {
  }

  lemma {:induction false} HuntReads(buf: string, input: string, out: string) returns (r: Reading)
    requires |buf| == BUFFER_SIZE && Hunt(buf, input, out).Delivered?
    ensures Reads(r, input)
    decreases |input|, 1
  {
    if input[0] == '$' {
      r := BodyReads(buf, "", input[1..], input, out);
    } else {
      var more := HuntReads(buf, input[1..], out);
      r := Before(Noise(input[0]), more);
      ReadsBefore(Noise(input[0]), more, input[1..], input);
    }
  }

  lemma {:induction false} BodyReads(buf: string, p: string, input: string, whole: string, out: string)
    returns (r: Reading)
    requires |buf| == BUFFER_SIZE && Clean(p) && |p| < BUFFER_SIZE && buf[..|p|] == p
    requires Body(buf, |p|, input, out).Delivered? && whole == "$" + p + input
    ensures Reads(r, whole)
    decreases |input|, 2
  {
    if |p| == BUFFER_SIZE - 1 {
      var more := HuntReads(buf[|p| := '\0'], input, out);
      r := Before(Overlong(p), more);
      ReadsBefore(Overlong(p), more, input, whole);
    } else if input[0] == '$' {
      var more := BodyReads(buf, "", input[1..], input, out);
      r := Before(Abandoned(p), more);
      ReadsBefore(Abandoned(p), more, input, whole);
    } else if input[0] == '#' {
      r := CheckReads(buf[|p| := '\0'], p, input[1..], whole, out);
    } else {
      Extend(buf, p, input[0]);
      r := BodyReads(buf[|p| := input[0]], p + [input[0]], input[1..], whole, out);
    }
  }

  lemma {:induction false} CheckReads(buf: string, p: string, input: string, whole: string, out: string)
    returns (r: Reading)
    requires |buf| == BUFFER_SIZE && Clean(p) && |p| < BUFFER_SIZE - 1 && buf[..|p|] == p
    requires Check(buf, |p|, input, out).Delivered? && whole == "$" + p + "#" + input
    ensures Reads(r, whole)
    decreases |input|, 3
  {
    var c1, c2 := input[0], input[1];
    var rest := input[2..];
    assert whole == FrameText(p, c1, c2) + rest;
    if Checksum(p) == Claimed(c1, c2) {
      r := Reading([], p, c1, c2, rest);
      assert JunkText([]) + (FrameText(p, c1, c2) + rest) == FrameText(p, c1, c2) + rest;
    } else {
      var more := HuntReads(buf, rest, out + "-");
      r := Before(Corrupt(p, c1, c2), more);
      ReadsBefore(Corrupt(p, c1, c2), more, rest, whole);
    }
  }

  /** `getpacket` is the grammar: it returns on exactly the inputs that have a reading, and then with
      that reading's packet, replies, unread rest and buffer. */
  lemma GetPacketFollowsGrammar(buf: string, input: string, out: string)
    requires |buf| == BUFFER_SIZE
    ensures Hunt(buf, input, out).Delivered? <==> exists r :: Reads(r, input)
    ensures forall r :: Reads(r, input) ==> Hunt(buf, input, out) == Outcome(r, buf, out)
  {
    forall r | Reads(r, input)
      ensures Hunt(buf, input, out) == Outcome(r, buf, out)
    {
      ReadingIsFollowed(r, input, buf, out);
    }
    if Hunt(buf, input, out).Delivered? {
      var r := HuntReads(buf, input, out);
    }
  }

  // ---------------------------------------------------------------- sending, and the round trip

  /** The characters of `buf` from `start` up to the first terminator. */
  function CString(buf: string, start: nat): (s: string)
    requires start <= |buf|
    ensures start + |s| <= |buf| && s == buf[start..start + |s|]
    ensures forall i :: 0 <= i < |s| ==> s[i] != '\0'
    ensures start + |s| < |buf| ==> buf[start + |s|] == '\0'
    decreases |buf| - start
  {
    if start == |buf| || buf[start] == '\0' then "" else [buf[start]] + CString(buf, start + 1)
  }

  /** The frame of a text. */
  function Frame(text: string): string {
    FrameText(text, HexDigit(Checksum(text) / 16), HexDigit(Checksum(text) % 16))
  }

  /** What goes over the wire for a text: its sum in two digits behind it, the high one first. */
  lemma FrameLooks(text: string)
    ensures var sum := Sum(text) % 256;
            Frame(text) == "$" + text + "#" + ["0123456789abcdef"[sum / 16], "0123456789abcdef"[sum % 16]]
  {
    ChecksumIsSum(text);
  }

  function Repeat(s: string, k: nat): string {
    if k == 0 then "" else Repeat(s, k - 1) + s
  }

  /** How many characters precede the first '+', or all of them. */
  function Refusals(input: string): (k: nat)
    ensures k <= |input|
    ensures forall i :: 0 <= i < k ==> input[i] != '+'
    ensures k < |input| ==> input[k] == '+'
  {
    if input == "" || input[0] == '+' then 0 else 1 + Refusals(input[1..])
  }

  lemma {:induction false} CStringEnds(buf: string, start: nat, n: nat)
    requires start + n < |buf| && buf[start + n] == '\0'
    requires forall i :: start <= i < start + n ==> buf[i] != '\0'
    ensures CString(buf, start) == buf[start..start + n]
    decreases n
  {
    if n == 0 {
    } else {
      CStringEnds(buf, start + 1, n - 1);
    }
  }

  lemma {:induction false} CStringReaches(buf: string, start: nat, n: nat)
    requires start + n <= |buf| && forall i :: start <= i < start + n ==> buf[i] != '\0'
    ensures |CString(buf, start)| >= n
    decreases n
  {
    if n == 0 {
    } else {
      CStringReaches(buf, start + 1, n - 1);
    }
  }

  lemma TextOf(buf: string, text: string)
    requires |text| < |buf| && (forall i :: 0 <= i < |text| ==> text[i] != '\0')
    ensures CString(StrCpy(buf, text), 0) == text
  {
    CStringEnds(StrCpy(buf, text), 0, |text|);
  }

  /** The third character `getpacket` looks at for a sequence id once `text` has arrived: for a text
      shorter than two characters it is left over from an earlier packet. */
  function Third(buf: string, text: string): char
    requires |buf| == BUFFER_SIZE
  {
    if |text| < 2 then buf[2] else At(text, 2)
  }

  /** A frame sent by `putpacket` is received by `getpacket` whole, at once, with one '+'. */
  lemma FrameArrives(buf: string, text: string, rest: string, out: string)
    requires |buf| == BUFFER_SIZE && |text| < BUFFER_SIZE - 1 && Clean(text)
    ensures Hunt(buf, Frame(text) + rest, out) == Accept(StrCpy(buf, text), rest, out)
    ensures StrCpy(buf, text)[2] == Third(buf, text)
  {
    var c := Checksum(text);
    assert Claimed(HexDigit(c / 16), HexDigit(c % 16)) == c;
    CheckedFrame(buf, text, HexDigit(c / 16), HexDigit(c % 16), rest, out);
  }

  /** The text handed on is the text sent exactly when its third character is not ':'. */
  lemma FrameRoundTrip(buf: string, text: string, rest: string, out: string)
    requires |buf| == BUFFER_SIZE && |text| < BUFFER_SIZE - 1 && Clean(text)
    requires forall i :: 0 <= i < |text| ==> text[i] != '\0'
    ensures (Hunt(buf, Frame(text) + rest, out) == Delivered(StrCpy(buf, text), 0, rest, out + "+")) <==>
            Third(buf, text) != ':'
    ensures CString(StrCpy(buf, text), 0) == text
  {
    FrameArrives(buf, text, rest, out);
    TextOf(buf, text);
  }

  /** Otherwise its first two characters are echoed as a sequence id and the text from the fourth on is
      handed on, so an id can only be lost from a text sent if the text itself has one. */
  lemma SequenceIdIsStripped(buf: string, text: string, rest: string, out: string)
    requires |buf| == BUFFER_SIZE && |text| < BUFFER_SIZE - 1 && Clean(text)
    requires forall i :: 0 <= i < |text| ==> text[i] != '\0'
    requires |text| >= 2 && Third(buf, text) == ':'
    ensures |text| >= 3
    ensures Hunt(buf, Frame(text) + rest, out) ==
            Delivered(StrCpy(buf, text), 3, rest, out + "+" + [text[0], text[1]])
    ensures CString(StrCpy(buf, text), 3) == text[3..]
  {
    FrameArrives(buf, text, rest, out);
    TextOf(buf, text);
    CStringFrom(StrCpy(buf, text), 0, 3);
  }

  lemma {:induction false} CStringFrom(buf: string, start: nat, k: nat)
    requires start <= |buf| && k <= |CString(buf, start)|
    decreases k
    ensures CString(buf, start + k) == CString(buf, start)[k..]
  {
    if k == 0 {
    } else {
      CStringFrom(buf, start + 1, k - 1);
    }
  }

  lemma {:induction false} CStringSameTail(a: string, b: string, start: nat)
    requires |a| == |b| && start <= |a| && forall k :: start <= k < |a| ==> a[k] == b[k]
    ensures CString(a, start) == CString(b, start)
    decreases |a| - start
  {
    if start < |a| {
      CStringSameTail(a, b, start + 1);
    }
  }

  /** A text shorter than two characters that arrives where an earlier packet left a ':' in third place is
      never seen: two characters are echoed as if it had a sequence id, and what is handed on is the tail
      of the earlier packet. */
  lemma ShortTextBehindColonIsLost(buf: string, text: string, rest: string, out: string)
    requires |buf| == BUFFER_SIZE && |text| < 2 && Clean(text) && buf[2] == ':'
    ensures var b := StrCpy(buf, text);
            && Hunt(buf, Frame(text) + rest, out) == Delivered(b, 3, rest, out + "+" + [b[0], b[1]])
            && CString(b, 3) == CString(buf, 3)
  {
    FrameArrives(buf, text, rest, out);
    CStringSameTail(StrCpy(buf, text), buf, 3);
  }

  /** So behind the request "?" with a sequence id, a request for the registers is taken for another "?". */
  lemma RegistersRequestIsLost(buf: string, rest: string, out: string, rest2: string, out2: string)
    requires |buf| == BUFFER_SIZE
    ensures var b := StrCpy(buf, "ab:?");
            && Hunt(buf, Frame("ab:?") + rest, out) == Delivered(b, 3, rest, out + "+" + "ab")
            && CString(b, 3) == "?"
            && var b2 := StrCpy(b, "g");
               && Hunt(b, Frame("g") + rest2, out2) == Delivered(b2, 3, rest2, out2 + "+" + ['g', '\0'])
               && CString(b2, 3) == "?"
  {
    var text := "ab:?";
    assert |text| == 4 && text[0] == 'a' && text[1] == 'b' && text[2] == ':' && text[3] == '?';
    SequenceIdIsStripped(buf, text, rest, out);
    var b := StrCpy(buf, text);
    assert b[2] == ':';
    ShortTextBehindColonIsLost(b, "g", rest2, out2);
  }

  /** What `putpacket` does: it sends the frame again for every character that is not '+'. */
  datatype Ack = Unanswered | Acked(rest: string, out: string)

  function Put(text: string, input: string, out: string): Ack {
    var k := Refusals(input);
    if k == |input| then Unanswered else Acked(input[k + 1..], out + Repeat(Frame(text), k + 1))
  }

  lemma PutStep(text: string, input: string, out: string)
    requires input != ""
    ensures Put(text, input, out) ==
            if input[0] == '+' then Acked(input[1..], out + Frame(text))
            else Put(text, input[1..], out + Frame(text))
  {
    var k := Refusals(input);
    if input[0] == '+' {
      assert Repeat(Frame(text), 1) == "" + Frame(text) == Frame(text);
    } else if k < |input| {
      assert input[1..][k..] == input[k + 1..];
      RepeatFront(Frame(text), k);
      Assoc(out, Frame(text), Repeat(Frame(text), k));
    }
  }

  lemma {:induction false} RepeatFront(s: string, k: nat)
    ensures Repeat(s, k + 1) == s + Repeat(s, k)
  {
    if k == 0 {
      assert "" + s == s + "";
    } else {
      RepeatFront(s, k - 1);
      Assoc(s, Repeat(s, k - 1), s);
    }
  }

  lemma ChecksumStep(s: string, n: nat)
    requires n < |s|
    ensures Checksum(s[..n + 1]) == (Checksum(s[..n]) + s[n] as int) % 0x100
  {
    assert s[..n + 1][..n] == s[..n];
  }

  lemma FrameParts(before: string, text: string)
    ensures before + Frame(text) ==
            before + "$" + text + ['#'] + [HexDigit(Checksum(text) / 16)] + [HexDigit(Checksum(text) % 16)]
  {
  }

  /** A buffer as it is at boot. */
  function Blank(): (s: string)
    ensures |s| == BUFFER_SIZE && forall i :: 0 <= i < BUFFER_SIZE ==> s[i] == '\0'
  {
    seq(BUFFER_SIZE, _ => '\0')
  }

  method NewBuffer() returns (buffer: array<char>)
    ensures fresh(buffer) && buffer.Length == BUFFER_SIZE && buffer[..] == Blank()
  {
    buffer := new char[BUFFER_SIZE](_ => '\0');
    assert buffer[..] == Blank();
  }

  /** The serial port and the receive buffer of gdb.c. */
  class Link {
    const port: Port
    const recvBuffer: array<char>
    /** The contents of `recvBuffer`. */
    ghost var buf: string

    ghost const Repr: set<object> := {this, port, port.recvBuffer, recvBuffer}

    ghost predicate Valid()
      reads Repr
    {
      port.Valid() && recvBuffer.Length == BUFFER_SIZE && recvBuffer != port.recvBuffer && buf == recvBuffer[..]
    }

    constructor (wire: string)
      ensures Valid() && fresh(Repr)
      ensures port.pending == wire && port.sent == ""
      ensures buf == Blank()
    {
      port := new Port(wire);
      var buffer := NewBuffer();
      recvBuffer, buf := buffer, buffer[..];
    }

    /** `getpacket` */
    method GetPacket() returns (ok: bool, start: nat)
      requires Valid()
      modifies this`buf, port, port.recvBuffer, recvBuffer
      ensures Valid()
      ensures match Hunt(old(buf), old(port.pending), old(port.sent))
              case Waiting => !ok
              case Delivered(b, s, rest, out) =>
                ok && buf == b && start == s && port.pending == rest && port.sent == out
    {
      hide Port.Valid;
      ghost var goal := Hunt(buf, port.pending, port.sent);
      start := 0;
      while true
        invariant Valid() && goal == Hunt(buf, port.pending, port.sent)
        decreases |port.pending|
      {
        ok := HuntStart(goal);
        if !ok {
          return;
        }
        var checksum, count, ended;
        ok, checksum, count, ended := ReadBody(goal);
        if !ok {
          return;
        }
        Store(count, '\0');
        if ended {
          var good;
          ok, good := Verify(goal, checksum, count);
          if !ok {
            return;
          }
          if good {
            start := SendAccept();
            return;
          }
        }
      }
    }

    /** From a '$' to the '#' that ends the frame or to the end of the buffer. */
    method ReadBody(ghost goal: Reception) returns (ok: bool, checksum: byte, count: nat, ended: bool)
      requires Valid() && goal == Body(buf, 0, port.pending, port.sent)
      modifies this`buf, port, port.recvBuffer, recvBuffer
      ensures Valid() && |port.pending| <= |old(port.pending)|
      ensures !ok ==> goal == Waiting
      ensures ok ==> count < BUFFER_SIZE && checksum == Checksum(buf[..count])
      ensures ok && ended ==> goal == Check(buf[count := '\0'], count, port.pending, port.sent)
      ensures ok && !ended ==> goal == Hunt(buf[count := '\0'], port.pending, port.sent)
    {
      hide Port.Valid;
      ok, checksum, count, ended := true, 0, 0, false;
      var ch;
      while count < BUFFER_SIZE - 1
        invariant Valid() && |port.pending| <= |old(port.pending)|
        invariant 0 <= count < BUFFER_SIZE && checksum == Checksum(buf[..count])
        invariant goal == Body(buf, count, port.pending, port.sent)
        decreases |port.pending|
      {
        ok, ch := port.DbgRecv();
        if !ok {
          return;
        }
        if ch == '$' {
          // goto retry
          checksum, count := 0, 0;
          continue;
        }
        if ch == '#' {
          ended := true;
          return;
        }
        checksum := (checksum + ch as int) % 0x100;
        Store(count, ch);
        count := count + 1;
      }
    }

    method Store(count: nat, ch: char)
      requires Valid() && count < BUFFER_SIZE
      modifies this`buf, recvBuffer
      ensures Valid() && buf == old(buf)[count := ch]
      ensures Checksum(buf[..count + 1]) == (Checksum(old(buf)[..count]) + ch as int) % 0x100
    {
      recvBuffer[count] := ch;
      buf := recvBuffer[..];
      ChecksumStep(buf, count);
      assert buf[..count] == old(buf)[..count];
    }

    /** The two checksum characters; a mismatch is answered with '-'. */
    method Verify(ghost goal: Reception, checksum: byte, count: nat) returns (ok: bool, good: bool)
      requires Valid() && count < BUFFER_SIZE && checksum == Checksum(buf[..count])
      requires goal == Check(buf, count, port.pending, port.sent)
      modifies port, port.recvBuffer
      ensures Valid() && |port.pending| <= |old(port.pending)|
      ensures !ok ==> goal == Waiting
      ensures ok && good ==> goal == Accept(buf, port.pending, port.sent)
      ensures ok && !good ==> goal == Hunt(buf, port.pending, port.sent)
    {
      hide Port.Valid;
      good := false;
      var c1, c2;
      ok, c1 := port.DbgRecv();
      if !ok {
        return;
      }
      ok, c2 := port.DbgRecv();
      if !ok {
        return;
      }
      var xmitcsum := (HexValue(c1) * 16 + HexValue(c2)) % 0x100;
      if checksum != xmitcsum {
        port.DbgSend('-');
      } else {
        good := true;
      }
    }

    method HuntStart(ghost goal: Reception) returns (ok: bool)
      requires Valid() && goal == Hunt(buf, port.pending, port.sent)
      modifies port, port.recvBuffer
      ensures Valid()
      ensures ok ==> goal == Body(buf, 0, port.pending, port.sent)
      ensures ok ==> |port.pending| < |old(port.pending)|
      ensures !ok ==> goal == Waiting
    {
      var ch;
      ok, ch := port.DbgRecv();
      while ok && ch != '$'
        invariant Valid()
        invariant ok ==> |port.pending| < |old(port.pending)|
        invariant !ok ==> goal == Waiting
        invariant ok ==> goal == if ch == '$' then Body(buf, 0, port.pending, port.sent)
                                 else Hunt(buf, port.pending, port.sent)
        decreases |port.pending|, ok
      {
        ok, ch := port.DbgRecv();
      }
    }

    method SendAccept() returns (start: nat)
      requires Valid()
      modifies port`sent
      ensures Valid()
      ensures var a := Accept(buf, port.pending, old(port.sent));
              start == a.start && port.sent == a.out
    {
      port.DbgSend('+');
      start := 0;
      if recvBuffer[2] == ':' {
        port.DbgSend(recvBuffer[0]);
        port.DbgSend(recvBuffer[1]);
        start := 3;
      }
    }

    /** `putpacket` of the C string at the start of `buffer`. */
    method PutPacket(buffer: string) returns (ok: bool)
      requires Valid() && |CString(buffer, 0)| < |buffer|
      modifies port, port.recvBuffer
      ensures Valid()
      ensures match Put(CString(buffer, 0), old(port.pending), old(port.sent))
              case Unanswered => !ok
              case Acked(rest, out) => ok && port.pending == rest && port.sent == out
    {
      hide Port.Valid;
      ghost var text := CString(buffer, 0);
      ghost var goal := Put(text, port.pending, port.sent);
      var ch := '-';
      while true
        invariant Valid()
        invariant goal == Put(text, port.pending, port.sent)
        decreases |port.pending|
      {
        if port.pending != "" {
          PutStep(text, port.pending, port.sent);
        }
        SendFrame(buffer);
        ok, ch := port.DbgRecv();
        if !ok || ch == '+' {
          return;
        }
      }
    }

    /** One round of the loop of `putpacket`. */
    method SendFrame(buffer: string)
      requires Valid() && |CString(buffer, 0)| < |buffer|
      modifies port`sent
      ensures Valid() && port.sent == old(port.sent) + Frame(CString(buffer, 0))
    {
      hide Port.Valid, CString, Frame;
      ghost var text := CString(buffer, 0);
      ghost var before := port.sent;
      port.DbgSend('$');
      assert before + "$" == before + "$" + text[..0];
      var checksum: byte, count := 0, 0;
      while buffer[count] != '\0'
        invariant 0 <= count <= |text| && checksum == Checksum(text[..count])
        invariant Valid() && port.sent == before + "$" + text[..count]
        decreases |text| - count
      {
        var ch := buffer[count];
        port.DbgSend(ch);
        ChecksumStep(text, count);
        assert text[..count + 1] == text[..count] + [ch];
        Assoc(before + "$", text[..count], [ch]);
        checksum := (checksum + ch as int) % 0x100;
        count := count + 1;
      }
      assert text[..count] == text;
      port.DbgSend('#');
      port.DbgSend(HexDigit(checksum / 16));
      port.DbgSend(HexDigit(checksum % 16));
      FrameParts(before, text);
    }
  }
}
