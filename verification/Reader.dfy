/** The YAML reader (readerc.go): bytes that arrive in any pieces, as UTF-8 or UTF-16, become
  * characters in UTF-8 followed by one NUL. */
module YamlReader {
  import opened Options
  import opened Utf8

  datatype Problem = Problem(what: string, offset: nat)

  const RAW_SIZE := 512
  const BUFFER_SIZE := 1536
  /** Callers never ask for more characters than this. */
  const MOST_WANTED := 8

  // ----- The input ---------------------------------------------------------------------

  datatype Status = More | End | Failure

  /** What one call of the read handler offers; bytes that do not fit are kept. */
  datatype Reply = Reply(bytes: seq<Byte>, status: Status)

  /** All bytes of the input. */
  function All(script: seq<Reply>): seq<Byte> {
    if script == [] then []
    else script[0].bytes + if script[0].status == More then All(script[1..]) else []
  }

  /** The read handler never fails. */
  predicate Clean(script: seq<Reply>) {
    forall i :: 0 <= i < |script| ==> script[i].status != Failure
  }

  function Left(script: seq<Reply>): nat {
    if script == [] then 0 else 1 + |script[0].bytes| + Left(script[1..])
  }

  // ----- What the input means ----------------------------------------------------------

  function EncodingOf(input: seq<Byte>): (e: (Encoding, nat))
    ensures e.1 <= |input|
  {
    if |input| >= 2 && input[0] == 0xFF && input[1] == 0xFE then (Utf16Le, 2)
    else if |input| >= 2 && input[0] == 0xFE && input[1] == 0xFF then (Utf16Be, 2)
    else if |input| >= 3 && input[0] == 0xEF && input[1] == 0xBB && input[2] == 0xBF then (Utf8Encoding, 3)
    else (Utf8Encoding, 0)
  }

  datatype Text = Text(chars: seq<Rune>, problem: Option<Problem>)

  /** The characters up to the first byte that cannot be decoded, which is at `offset`. */
  function Decode(bs: seq<Byte>, e: Encoding, offset: nat): Text {
    if bs == [] then Text([], None)
    else
      match StepOf(bs, e)
      case Char(v, w) =>
        var rest := Decode(bs[w..], e, offset + w);
        Text([v as Rune] + rest.chars, rest.problem)
      case Incomplete(what) => Text([], Some(Problem(what, offset)))
      case Bad(what, at) => Text([], Some(Problem(what, offset + at)))
  }

  function Expected(input: seq<Byte>): Text {
    var (e, n) := EncodingOf(input);
    Decode(input[n..], e, n)
  }

  function EncodeIn(c: Rune, e: Encoding): (bs: seq<Byte>)
    ensures bs != []
  {
    match e case Utf8Encoding => Encode(c) case Utf16Le => Encode16(c, true) case Utf16Be => Encode16(c, false)
  }

  predicate AreAllowed(cs: seq<Rune>) {
    forall i :: 0 <= i < |cs| ==> IsAllowed(cs[i])
  }

  function Flat(cs: seq<Rune>, e: Encoding): seq<Byte> {
    if cs == [] then [] else EncodeIn(cs[0], e) + Flat(cs[1..], e)
  }

  function Bom(e: Encoding): seq<Byte> {
    match e case Utf8Encoding => [0xEF, 0xBB, 0xBF] case Utf16Le => [0xFF, 0xFE] case Utf16Be => [0xFE, 0xFF]
  }

  /** The bytes of allowed characters decode to these characters. */
  lemma {:induction false} Decodes(cs: seq<Rune>, e: Encoding, offset: nat)
    requires AreAllowed(cs)
    ensures Decode(Flat(cs, e), e, offset) == Text(cs, None)
    decreases |cs|
  {
    hide EncodeIn, StepOf;
    if cs != [] {
      var first, rest := EncodeIn(cs[0], e), Flat(cs[1..], e);
      StepEncoded(cs[0], e, rest);
      Decodes(cs[1..], e, offset + |first|);
      assert (first + rest)[|first|..] == rest;
      assert [cs[0]] + cs[1..] == cs;
    }
  }

  lemma StepEncoded(c: Rune, e: Encoding, rest: seq<Byte>)
    requires IsAllowed(c)
    ensures StepOf(EncodeIn(c, e) + rest, e) == Char(c, |EncodeIn(c, e)|)
  {
    hide Step8, Step16, Encode, Encode16;
    Decodes8(c, rest);
    Decodes16(c, true, rest);
    Decodes16(c, false, rest);
  }

  /** A byte order mark tells how the text that follows it is encoded. */
  lemma ExpectedText(cs: seq<Rune>, e: Encoding)
    requires AreAllowed(cs)
    ensures Expected(Bom(e) + Flat(cs, e)) == Text(cs, None)
  {
    hide Decode;
    Decodes(cs, e, |Bom(e)|);
    assert (Bom(e) + Flat(cs, e))[|Bom(e)|..] == Flat(cs, e);
  }

  /** Characters that are decided are not changed by what comes after them. */
  lemma DecodeOne(bs: seq<Byte>, more: seq<Byte>, e: Encoding, offset: nat)
    requires bs != [] && !StepOf(bs, e).Incomplete?
    ensures Decode(bs + more, e, offset)
         == match StepOf(bs, e)
            case Char(v, w) =>
              var rest := Decode(bs[w..] + more, e, offset + w);
              Text([v as Rune] + rest.chars, rest.problem)
            case Bad(what, at) => Text([], Some(Problem(what, offset + at)))
  {
    hide StepOf;
    Decided(bs, more, e);
    var s := StepOf(bs, e);
    if s.Char? {
      assert (bs + more)[s.width..] == bs[s.width..] + more;
    }
  }

  lemma SameMark(pending: seq<Byte>, rest: seq<Byte>)
    requires |pending| >= 3 || rest == []
    ensures EncodingOf(pending) == EncodingOf(pending + rest)
  {
    assert pending + [] == pending;
  }

  lemma OneMore(cs: seq<Rune>, c: Rune)
    ensures EncodeAll(cs + [c]) == EncodeAll(cs) + Encode(c)
  {
    assert (cs + [c])[..|cs|] == cs;
  }

  lemma NothingLeft()
    ensures All([]) == [] && Clean([])
  {
  }

  lemma FirstReply(script: seq<Reply>)
    requires script != []
    ensures All(script) == script[0].bytes + if script[0].status == More then All(script[1..]) else []
    ensures Left(script) == 1 + |script[0].bytes| + Left(script[1..])
    ensures Clean(script) ==> Clean(script[1..]) && script[0].status != Failure
  {
  }

  lemma StillClean(script: seq<Reply>, rest: seq<Reply>)
    requires |rest| == |script| && forall i :: 0 <= i < |script| ==> rest[i].status == script[i].status
    ensures Clean(script) ==> Clean(rest)
  {
  }

  /** The rest of a reply is a reply. */
  lemma PartOfReply(script: seq<Reply>, room: nat)
    requires script != [] && 0 < room < |script[0].bytes|
    ensures var rest := [Reply(script[0].bytes[room..], script[0].status)] + script[1..];
      && All(script) == script[0].bytes[..room] + All(rest) && Left(rest) < Left(script)
      && (Clean(script) ==> Clean(rest))
  {
    hide All, Left, Clean;
    var rest := [Reply(script[0].bytes[room..], script[0].status)] + script[1..];
    assert rest[1..] == script[1..];
    FirstReply(script);
    FirstReply(rest);
    StillClean(script, rest);
    assert script[0].bytes == script[0].bytes[..room] + script[0].bytes[room..];
  }

  lemma EncodeIs(c: Rune)
    ensures Encode(c) ==
      if c <= 0x7F then [c]
      else if c <= 0x7FF then [0xC0 + c / 64, 0x80 + c % 64]
      else if c <= 0xFFFF then [0xE0 + c / 4096, 0x80 + c / 64 % 64, 0x80 + c % 64]
      else [0xF0 + c / 262144, 0x80 + c / 4096 % 64, 0x80 + c / 64 % 64, 0x80 + c % 64]
  {
  }

  class Reader {
    const raw: array<Byte>
    var rawLen: nat
    var rawPos: nat
    const buffer: array<Byte>
    var len: nat
    var pos: nat
    var unread: nat
    var eof: bool
    var encoding: Option<Encoding>
    var offset: nat
    var error: Option<Problem>
    var script: seq<Reply>
    ghost const input: seq<Byte>
    /** The characters that were consumed and those that wait in the buffer. */
    ghost var taken: seq<Rune>
    ghost var chars: seq<Rune>
    /** Is the final NUL in the buffer? */
    ghost var ended: bool

    ghost function Pending(): seq<Byte>
      reads `rawPos, `rawLen, raw
      requires rawPos <= rawLen <= raw.Length
    {
      raw[rawPos..rawLen]
    }

    ghost function Rest(): seq<Byte>
      reads `eof, `script
    {
      if eof then [] else All(script)
    }

    ghost predicate ValidRaw()
      reads `rawPos, `rawLen, `eof, `script, `offset, raw
    {
      && raw.Length == RAW_SIZE && rawPos <= rawLen <= RAW_SIZE && offset <= |input|
      && input[offset..] == Pending() + Rest()
    }

    ghost predicate ValidBuffer()
      reads `pos, `len, `unread, `chars, `ended, buffer
    {
      && buffer.Length == BUFFER_SIZE && pos <= len <= BUFFER_SIZE
      && buffer[pos..len] == EncodeAll(chars) + (if ended then [0] else [])
      && unread == |chars| + (if ended then 1 else 0)
    }

    /** What was decoded and what is still to decode make up the text. */
    ghost predicate OnTrack()
      reads `encoding, `offset, `taken, `chars, `ended, `eof
    {
      && (ended ==> eof && offset == |input|)
      && if encoding.None? then offset == 0 && taken == chars == [] && !ended
         else
           && encoding.value == EncodingOf(input).0 && offset <= |input|
           && var rest := Decode(input[offset..], encoding.value, offset);
           Expected(input) == Text(taken + chars + rest.chars, rest.problem)
    }

    ghost predicate Valid()
      reads this, raw, buffer
    {
      raw != buffer && ValidRaw() && ValidBuffer() && OnTrack()
    }

    constructor (script: seq<Reply>)
      ensures Valid() && fresh(raw) && fresh(buffer)
      ensures input == All(script) && this.script == script && error.None? && taken == chars == [] && !ended && !eof
    {
      raw, buffer := new Byte[RAW_SIZE], new Byte[BUFFER_SIZE];
      rawLen, rawPos, len, pos, unread, offset := 0, 0, 0, 0, 0, 0;
      eof, encoding, error := false, None, None;
      this.script, input := script, All(script);
      taken, chars, ended := [], [], false;
    }

    method SetError(what: string, offset: nat) returns (ok: bool)
      modifies `error
      ensures !ok && error == Some(Problem(what, offset))
    {
      error := Some(Problem(what, offset));
      ok := false;
    }

    // ----- The raw buffer --------------------------------------------------------------

    /** At most `room` bytes from the read handler. */
    method Read(room: nat) returns (bytes: seq<Byte>, status: Status)
      requires room > 0 && !eof
      modifies `script
      ensures |bytes| <= room
      ensures All(old(script)) == bytes + if status == More then All(script) else []
      ensures status == More ==> Left(script) < Left(old(script))
      ensures Clean(old(script)) ==> Clean(script) && status != Failure
    {
      hide All, Left, Clean;
      if script == [] {
        NothingLeft();
        return [], End;
      }
      var r := script[0];
      FirstReply(script);
      if |r.bytes| > room {
        bytes, status := r.bytes[..room], More;
        PartOfReply(script, room);
        script := [Reply(r.bytes[room..], r.status)] + script[1..];
      } else {
        bytes, status := r.bytes, r.status;
        script := script[1..];
      }
    }

    /** Moves the remaining bytes to the beginning. */
    method MoveRaw()
      requires ValidRaw()
      modifies `rawLen, `rawPos, raw
      ensures ValidRaw() && rawPos == 0 && Pending() == old(Pending())
    {
      hide All;
      ghost var pending := Pending();
      var n := rawLen - rawPos;
      if 0 < rawPos < rawLen {
        MoveDown();
      }
      assert raw[..n] == pending;
      rawLen := n;
      rawPos := 0;
    }

    /** Reads more bytes behind those that were not decoded. */
    method UpdateRawBuffer() returns (ok: bool)
      requires ValidRaw() && error.None?
      modifies `rawLen, `rawPos, `eof, `script, `error, raw
      ensures ok == error.None?
      ensures ok ==> ValidRaw() && old(Pending()) <= Pending()
      ensures ok && !eof && old(rawLen - rawPos) < RAW_SIZE ==> Left(script) < Left(old(script))
      ensures old(eof) ==> ok && eof && script == old(script) && Pending() == old(Pending())
      ensures if ok then Clean(old(script)) ==> Clean(script) else !Clean(old(script))
    {
      hide All, Left, Clean;
      if (rawPos == 0 && rawLen == RAW_SIZE) || eof {
        return true;
      }
      MoveRaw();
      ok := FillRaw();
    }

    /** The pending bytes move to the front. */
    method MoveDown()
      requires rawPos <= rawLen <= raw.Length
      modifies raw
      ensures raw[..rawLen - rawPos] == old(raw[rawPos..rawLen])
    {
      forall i | 0 <= i < rawLen - rawPos {
        raw[i] := raw[rawPos + i];
      }
    }

    /** Puts bytes behind those that are pending. */
    method Append(bytes: seq<Byte>)
      requires rawPos == 0 && rawLen + |bytes| <= raw.Length
      modifies `rawLen, raw
      ensures rawLen == old(rawLen) + |bytes| && Pending() == old(Pending()) + bytes
    {
      ghost var pending := Pending();
      forall i | 0 <= i < |bytes| {
        raw[rawLen + i] := bytes[i];
      }
      assert raw[..rawLen] == pending;
      rawLen := rawLen + |bytes|;
    }

    method FillRaw() returns (ok: bool)
      requires ValidRaw() && error.None? && !eof && rawPos == 0 && rawLen < RAW_SIZE
      modifies `rawLen, `eof, `script, `error, raw
      ensures ok == error.None?
      ensures ok ==> ValidRaw() && old(Pending()) <= Pending() && (!eof ==> Left(script) < Left(old(script)))
      ensures if ok then Clean(old(script)) ==> Clean(script) else !Clean(old(script))
    {
      hide All, Left, Clean;
      ghost var pending := Pending();
      ghost var rest := Rest();
      var bytes, status := Read(RAW_SIZE - rawLen);
      Append(bytes);
      if status == End {
        eof := true;
      }
      if status == Failure {
        ok := SetError("input error", offset);
        return;
      }
      ok := true;
      assert pending + rest == (pending + bytes) + Rest();
    }

    /** Reads enough bytes for a byte order mark, if there are as many. */
    method ReadMark() returns (ok: bool)
      requires ValidRaw() && error.None?
      modifies `rawLen, `rawPos, `eof, `script, `error, raw
      ensures ok == error.None?
      ensures ok ==> ValidRaw() && (eof || rawLen - rawPos >= 3)
      ensures if ok then Clean(old(script)) ==> Clean(script) else !Clean(old(script))
    {
      hide All, Left, Clean, Pending, Rest;
      ok := true;
      while !eof && rawLen - rawPos < 3
        invariant ok && ValidRaw() && error.None? && (Clean(old(script)) ==> Clean(script))
        decreases !eof, Left(script)
      {
        ok := UpdateRawBuffer();
        if !ok {
          return;
        }
      }
    }

    method FindMark() returns (e: Encoding, n: nat)
      requires ValidRaw() && offset == 0 && (eof || rawLen - rawPos >= 3)
      ensures (e, n) == EncodingOf(input) && rawPos + n <= rawLen
    {
      hide All;
      var avail := rawLen - rawPos;
      SameMark(Pending(), Rest());
      assert input == Pending() + Rest();
      assert forall i :: 0 <= i < avail ==> raw[rawPos + i] == Pending()[i];
      if avail >= 2 && raw[rawPos] == 0xFF && raw[rawPos + 1] == 0xFE {
        return Utf16Le, 2;
      } else if avail >= 2 && raw[rawPos] == 0xFE && raw[rawPos + 1] == 0xFF {
        return Utf16Be, 2;
      } else if avail >= 3 && raw[rawPos] == 0xEF && raw[rawPos + 1] == 0xBB && raw[rawPos + 2] == 0xBF {
        return Utf8Encoding, 3;
      }
      return Utf8Encoding, 0;
    }

    /** The encoding is that of the byte order mark, which is skipped; without one it is UTF-8. */
    method DetermineEncoding() returns (ok: bool)
      requires Valid() && error.None? && encoding.None?
      modifies `rawLen, `rawPos, `eof, `script, `error, `encoding, `offset, raw
      ensures ok == error.None?
      ensures ok ==> Valid() && encoding.Some?
      ensures if ok then Clean(old(script)) ==> Clean(script) else !Clean(old(script))
    {
      hide ValidRaw, Decode, EncodeAll, EncodingOf, Left, Clean;
      ok := ReadMark();
      if ok {
        var e, n := FindMark();
        SkipRaw(n);
        encoding := Some(e);
        assert [] + [] + Decode(input[offset..], e, offset).chars == Decode(input[offset..], e, offset).chars;
      }
    }

    /** Moves the raw pointers. */
    method SkipRaw(n: nat)
      requires ValidRaw() && rawPos + n <= rawLen
      modifies `rawPos, `offset
      ensures ValidRaw() && offset == old(offset) + n && rawPos == old(rawPos) + n && Pending() == old(Pending())[n..]
      ensures input[offset..] == old(input[offset..])[n..]
    {
      hide All;
      assert input[offset..][n..] == input[offset + n..];
      assert (Pending() + Rest())[n..] == Pending()[n..] + Rest();
      rawPos := rawPos + n;
      offset := offset + n;
    }

    // ----- One character ---------------------------------------------------------------

    method DecodeUtf8() returns (s: Step)
      requires ValidRaw() && rawPos < rawLen
      ensures s == Step8(Pending())
    {
      hide ValidRaw, Width, High, Low, IsTrailing;
      Bytes();
      ghost var pending := Pending();
      var octet := raw[rawPos];
      var width := Width(octet);
      if width == 0 {
        return Bad("invalid leading UTF-8 octet", 0);
      }
      if width > rawLen - rawPos {
        return Incomplete("incomplete UTF-8 octet sequence");
      }
      var value := High(octet);
      var k := 1;
      while k < width
        invariant 1 <= k <= width && value == Value8(pending, k)
        invariant FirstBad(pending, 1, width) == FirstBad(pending, k, width)
      {
        octet := raw[rawPos + k];
        if !IsTrailing(octet) {
          return Bad("invalid trailing UTF-8 octet", k);
        }
        value := 64 * value + Low(octet);
        k := k + 1;
      }
      if (width == 2 && value < 0x80) || (width == 3 && value < 0x800) || (width == 4 && value < 0x10000) {
        return Bad("invalid length of a UTF-8 sequence", 0);
      }
      if 0xD800 <= value <= 0xDFFF || value > 0x10FFFF {
        return Bad("invalid Unicode character", 0);
      }
      return Char(value, width);
    }

    lemma Bytes()
      requires ValidRaw()
      ensures rawPos <= rawLen <= raw.Length && |Pending()| == rawLen - rawPos
      ensures forall i {:trigger Pending()[i]} :: 0 <= i < rawLen - rawPos ==> Pending()[i] == raw[rawPos + i]
      ensures forall i {:trigger raw[i]} :: rawPos <= i < rawLen ==> Pending()[i - rawPos] == raw[i]
    {
    }

    function UnitHere(at: nat, le: bool): (u: nat)
      reads this, raw
      requires rawPos + at + 2 <= rawLen <= raw.Length
    {
      var first: int, second: int := raw[rawPos + at], raw[rawPos + at + 1];
      if le then first + 256 * second else second + 256 * first
    }

    method DecodeUtf16(le: bool) returns (s: Step)
      requires ValidRaw() && rawPos < rawLen
      ensures s == Step16(Pending(), le)
    {
      hide ValidRaw;
      Bytes();
      var avail := rawLen - rawPos;
      if avail < 2 {
        return Incomplete("incomplete UTF-16 character");
      }
      var value := UnitHere(0, le);
      assert value == Unit(Pending(), 0, le);
      if 0xDC00 <= value < 0xE000 {
        return Bad("unexpected low surrogate area", 0);
      }
      if 0xD800 <= value < 0xDC00 {
        if avail < 4 {
          return Incomplete("incomplete UTF-16 surrogate pair");
        }
        var value2 := UnitHere(2, le);
        assert value2 == Unit(Pending(), 2, le);
        if !(0xDC00 <= value2 < 0xE000) {
          return Bad("expected low surrogate area", 2);
        }
        return Char(0x10000 + value % 1024 * 1024 + value2 % 1024, 4);
      }
      return Char(value, 2);
    }

    /** The next character, if it is there and allowed. */
    method DecodeHere() returns (s: Step)
      requires ValidRaw() && rawPos < rawLen && encoding.Some?
      ensures Pending() != [] && s == StepOf(Pending(), encoding.value)
    {
      hide ValidRaw, Step8, Step16, IsAllowed;
      Bytes();
      match encoding.value {
        case Utf8Encoding => s := DecodeUtf8();
        case Utf16Le => s := DecodeUtf16(true);
        case Utf16Be => s := DecodeUtf16(false);
      }
      if s.Char? && !IsAllowed(s.value) {
        s := Bad("control characters are not allowed", 0);
      }
    }

    // ----- The buffer ------------------------------------------------------------------

    /** Moves the unread characters to the beginning. */
    method MoveUnread()
      requires ValidBuffer()
      modifies `pos, `len, buffer
      ensures ValidBuffer() && pos == 0
    {
      hide EncodeAll;
      ghost var text := buffer[pos..len];
      var n := len - pos;
      if 0 < pos < len {
        forall i | 0 <= i < n {
          buffer[i] := buffer[pos + i];
        }
      }
      assert forall i :: 0 <= i < n ==> buffer[i] == text[i];
      pos, len := 0, n;
      assert buffer[pos..len] == text;
    }

    method PutBytes(value: Rune)
      requires len + 4 <= buffer.Length
      modifies `len, buffer
      ensures len == old(len) + |Encode(value)| <= buffer.Length
      ensures buffer[..old(len)] == old(buffer[..len]) && buffer[old(len)..len] == Encode(value)
    {
      hide Encode;
      EncodeIs(value);
      if value <= 0x7F {
        buffer[len] := value;
        len := len + 1;
      } else if value <= 0x7FF {
        buffer[len] := 0xC0 + value / 64;
        buffer[len + 1] := 0x80 + value % 64;
        len := len + 2;
      } else if value <= 0xFFFF {
        buffer[len] := 0xE0 + value / 4096;
        buffer[len + 1] := 0x80 + value / 64 % 64;
        buffer[len + 2] := 0x80 + value % 64;
        len := len + 3;
      } else {
        buffer[len] := 0xF0 + value / 262144;
        buffer[len + 1] := 0x80 + value / 4096 % 64;
        buffer[len + 2] := 0x80 + value / 64 % 64;
        buffer[len + 3] := 0x80 + value % 64;
        len := len + 4;
      }
    }

    /** Puts a character into the buffer. */
    method Put(value: Rune)
      requires ValidBuffer() && !ended && len + 4 <= BUFFER_SIZE
      modifies `len, `unread, `chars, buffer
      ensures ValidBuffer() && chars == old(chars) + [value]
      ensures len == old(len) + |Encode(value)| && unread == old(unread) + 1
    {
      hide EncodeAll, Encode;
      ghost var text := buffer[pos..len];
      ghost var all := buffer[..len];
      PutBytes(value);
      assert text == all[pos..];
      assert buffer[pos..len] == text + Encode(value);
      OneMore(chars, value);
      unread := unread + 1;
      chars := chars + [value];
    }

    method PutNul()
      requires ValidBuffer() && !ended && len < BUFFER_SIZE
      modifies `len, `unread, `ended, buffer
      ensures ValidBuffer() && ended && unread == old(unread) + 1
    {
      hide EncodeAll;
      ghost var text := buffer[pos..len];
      buffer[len] := 0;
      len := len + 1;
      assert buffer[pos..len] == text + [0];
      unread := unread + 1;
      ended := true;
    }

    /** Decoding stopped: everything before the first bad byte was delivered. */
    ghost predicate Stopped()
      reads `error, `taken, `chars
    {
      error == Expected(input).problem && taken + chars == Expected(input).chars
    }

    /** Moves one character from the raw buffer to the buffer, unless it is incomplete. */
    method TakeChar() returns (more: bool)
      requires Valid() && error.None? && encoding.Some? && !ended && rawPos < rawLen && len + 4 <= BUFFER_SIZE
      modifies `rawPos, `offset, `len, `unread, `chars, `error, buffer
      ensures error.Some? ==> !more && Stopped()
      ensures error.None? ==> Valid() && len - old(len) <= 2 * (rawPos - old(rawPos))
      ensures error.None? ==> if more then rawPos > old(rawPos) && old(chars) <= chars
                              else chars == old(chars) && !eof && rawLen - rawPos < 4
    {
      hide EncodeAll, Encode, Decode, StepOf, Expected, Pending;
      var s := DecodeHere();
      ghost var e := encoding.value;
      ghost var rest := Decode(input[offset..], e, offset);
      match s {
        case Incomplete(what) =>
          more := false;
          Short(Pending(), e);
          Bytes();
          if eof {
            assert Pending() + [] == Pending();
            Unfinished(Pending(), e, offset);
            assert taken + chars + [] == taken + chars;
            var _ := SetError(what, offset);
          }
        case Bad(what, at) =>
          more := false;
          DecodeOne(Pending(), Rest(), e, offset);
          assert taken + chars + [] == taken + chars;
          var _ := SetError(what, offset + at);
        case Char(value, width) =>
          more := true;
          DecodeOne(Pending(), Rest(), e, offset);
          NotLonger(Pending(), e);
          Bytes();
          MoveChar(value, width);
      }
    }

    method MoveChar(value: Rune, width: nat)
      requires Valid() && error.None? && encoding.Some? && !ended && rawPos + width <= rawLen && len + 4 <= BUFFER_SIZE
      requires Decode(input[offset..], encoding.value, offset)
            == var rest := Decode(Pending()[width..] + Rest(), encoding.value, offset + width);
               Text([value] + rest.chars, rest.problem)
      modifies `rawPos, `offset, `len, `unread, `chars, buffer
      ensures Valid() && rawPos == old(rawPos) + width && len == old(len) + |Encode(value)|
      ensures chars == old(chars) + [value]
    {
      hide EncodeAll, Encode, Decode, Expected, ValidBuffer, ValidRaw;
      Bytes();
      ghost var rest := Decode(Pending()[width..] + Rest(), encoding.value, offset + width);
      ghost var was := taken + chars;
      SkipRaw(width);
      Together();
      Put(value);
      assert taken + chars == was + [value];
      assert was + ([value] + rest.chars) == (was + [value]) + rest.chars;
    }

    lemma Together()
      requires ValidRaw()
      ensures rawPos <= rawLen <= raw.Length && offset <= |input| && input[offset..] == Pending() + Rest()
    {
    }

    /** Decodes the raw buffer, but for an incomplete character at its end. */
    method DecodeRaw()
      requires Valid() && error.None? && encoding.Some? && !ended && len <= 4 * MOST_WANTED
      modifies `rawPos, `offset, `len, `unread, `chars, `error, buffer
      ensures error.Some? ==> Stopped()
      ensures error.None? ==> Valid() && old(chars) <= chars && len < BUFFER_SIZE
      ensures error.None? ==> rawLen - rawPos < 4 && (eof ==> rawPos == rawLen)
    {
      hide EncodeAll, Decode, Expected, ValidBuffer, OnTrack;
      var more := true;
      while more && rawPos != rawLen
        invariant error.None? && Valid() && old(chars) <= chars && rawPos <= rawLen <= RAW_SIZE
        invariant len <= 4 * MOST_WANTED + 2 * rawPos
        invariant !more ==> !eof && rawLen - rawPos < 4
        decreases more, rawLen - rawPos
      {
        more := TakeChar();
        if error.Some? {
          return;
        }
      }
    }

    /** After the last call the NUL was put into the buffer. */
    ghost predicate AtRest()
      reads this, raw, buffer
    {
      Valid() && error.None? && (eof ==> ended)
    }

    /** Provides `length` characters, or all that are left and the NUL. */
    method UpdateBuffer(length: nat) returns (ok: bool)
      requires AtRest() && 1 <= length <= MOST_WANTED
      modifies this, raw, buffer
      ensures ok == error.None? && taken == old(taken)
      ensures ok ==> AtRest() && (unread >= length || ended) && old(chars) <= chars
      ensures ok ==> Clean(old(script)) ==> Clean(script)
      ensures !ok ==> Stopped() || !Clean(old(script))
    {
      hide EncodeAll, Decode, Expected, OnTrack, Clean, Left;
      EndedMeansDone();
      if (eof && rawPos == rawLen) || unread >= length {
        return true;
      }
      if encoding.None? {
        ok := DetermineEncoding();
        if !ok {
          return;
        }
      }
      MoveUnread();
      var first := true;
      ok := true;
      var last := false;
      while unread < length && !last
        invariant ok && Valid() && error.None? && encoding.Some? && pos == 0 && (!first ==> eof ==> ended)
        invariant taken == old(taken) && old(chars) <= chars && (Clean(old(script)) ==> Clean(script))
        invariant (first ==> unread < length) && last == ended && (last || first || rawLen - rawPos < 4)
        decreases !last, first, Left(script)
      {
        ok, last := FillOnce(first);
        if !ok {
          return;
        }
        first := false;
      }
    }

    /** Reads more bytes if needed, decodes them, and puts the NUL if they are the last. */
    method FillOnce(first: bool) returns (ok: bool, last: bool)
      requires Valid() && error.None? && encoding.Some? && pos == 0 && !ended && unread < MOST_WANTED
      requires first || (!eof && rawLen - rawPos < 4)
      modifies this, raw, buffer
      ensures ok == error.None? && taken == old(taken)
      ensures ok ==> Valid() && encoding.Some? && pos == 0 && (eof ==> ended) && old(chars) <= chars
      ensures ok ==> last == ended && rawLen - rawPos < 4 && (Clean(old(script)) ==> Clean(script))
      ensures ok && !first && !ended ==> Left(script) < Left(old(script))
      ensures !ok ==> Stopped() || !Clean(old(script))
    {
      hide EncodeAll, Decode, Expected, Clean, Left, ValidBuffer;
      last := false;
      if !first || rawPos == rawLen {
        ok := UpdateRawBuffer();
        if !ok {
          return;
        }
      }
      Filled();
      DecodeRaw();
      ok := error.None?;
      if ok && eof {
        AllDecoded();
        PutNul();
        last := true;
      }
    }

    lemma EndedMeansDone()
      requires Valid()
      ensures ended ==> eof && rawPos == rawLen
    {
      if ended {
        assert |input[offset..]| == 0;
      }
    }

    lemma Filled()
      requires ValidBuffer() && !ended && pos == 0
      ensures len <= 4 * unread
    {
      EncodeLength(chars);
    }

    lemma AllDecoded()
      requires ValidRaw() && eof && rawPos == rawLen
      ensures offset == |input|
    {
    }

    /** Consumes a character; the final NUL is never consumed. */
    method Skip() returns (bytes: seq<Byte>)
      requires AtRest() && chars != []
      modifies `pos, `unread, `chars, `taken
      ensures AtRest() && taken == old(taken) + [old(chars)[0]] && chars == old(chars)[1..]
      ensures bytes == Encode(old(chars)[0])
    {
      hide Encode, EncodeAll, Decode, Expected, ValidRaw;
      ghost var c, more := chars[0], chars[1..];
      ghost var tail := if ended then [0] else [];
      FirstBytes(chars, tail);
      var w := Width(buffer[pos]);
      assert buffer[pos] == buffer[pos..len][0];
      bytes := buffer[pos..pos + w];
      assert bytes == buffer[pos..len][..w];
      pos := pos + w;
      assert buffer[pos..len] == old(buffer[pos..len])[w..];
      unread := unread - 1;
      assert taken + chars == (taken + [c]) + more;
      taken := taken + [c];
      chars := more;
    }

    /** Is the next character the NUL? */
    method AtNul() returns (r: bool)
      requires AtRest() && unread > 0
      ensures r == (chars == []) && (r ==> ended)
    {
      hide Encode, EncodeAll, Decode, Expected, ValidRaw;
      assert buffer[pos] == buffer[pos..len][0] by {
        if chars != [] {
          FirstBytes(chars, if ended then [0] else []);
        }
      }
      EncodeNone();
      assert buffer[pos] == buffer[pos..len][0];
      r := buffer[pos] == 0;
      if chars != [] {
        NotNul();
        FirstBytes(chars, if ended then [0] else []);
        FirstByte(chars[0]);
      }
    }

    /** Consumes all characters in the buffer, and stops at the NUL. */
    method Drain() returns (bytes: seq<Byte>, nul: bool)
      requires AtRest()
      modifies `pos, `unread, `chars, `taken
      ensures AtRest() && chars == [] && taken == old(taken) + old(chars) &&
        EncodeAll(taken) == EncodeAll(old(taken)) + bytes
      ensures nul == ended
    {
      hide Encode, EncodeAll, Decode, Expected, OnTrack, ValidRaw;
      bytes := [];
      while unread > 0
        invariant AtRest() && taken + chars == old(taken) + old(chars)
        invariant EncodeAll(taken) == EncodeAll(old(taken)) + bytes
        decreases unread
      {
        nul := AtNul();
        if nul {
          return;
        }
        OneMore(taken, chars[0]);
        var b := Skip();
        bytes := bytes + b;
      }
      nul := false;
    }

    /** What was taken and what waits is the beginning of the text, and all of it at the end. */
    lemma WholeText()
      requires AtRest()
      ensures taken <= taken + chars <= Expected(input).chars
      ensures ended ==> Expected(input) == Text(taken + chars, None)
    {
      if ended {
        assert input[offset..] == [];
        assert taken + chars + [] == taken + chars;
      }
    }

    lemma NotNul()
      requires OnTrack() && chars != []
      ensures chars[0] != 0
    {
      hide Decode;
      var (e, n) := EncodingOf(input);
      AllAllowed(input[n..], e, n);
      assert Expected(input).chars[|taken|] == chars[0] && IsAllowed(chars[0]);
    }
  }

  lemma {:induction false} AllAllowed(bs: seq<Byte>, e: Encoding, offset: nat)
    ensures AreAllowed(Decode(bs, e, offset).chars)
    decreases |bs|
  {
    hide StepOf;
    if bs != [] {
      var s := StepOf(bs, e);
      if s.Char? {
        AllAllowed(bs[s.width..], e, offset + s.width);
        var rest, cs := Decode(bs[s.width..], e, offset + s.width).chars, Decode(bs, e, offset).chars;
        assert cs == [s.value as Rune] + rest;
        OneAllowed(bs, e);
        forall i | 0 <= i < |cs| ensures IsAllowed(cs[i]) {
          assert i > 0 ==> cs[i] == rest[i - 1];
        }
      }
    }
  }

  lemma OneAllowed(bs: seq<Byte>, e: Encoding)
    requires bs != [] && StepOf(bs, e).Char?
    ensures IsAllowed(StepOf(bs, e).value)
  {
  }

  lemma FirstByte(c: Rune)
    ensures Encode(c)[0] == 0 <==> c == 0
  {
  }

  lemma EncodeFront(c: Rune, rest: seq<Rune>)
    ensures EncodeAll([c] + rest) == Encode(c) + EncodeAll(rest)
  {
    hide Encode, EncodeAll;
    EncodeConcat([c], rest);
    EncodeNone();
    OneMore([], c);
    assert [] + [c] == [c] && [] + Encode(c) == Encode(c);
  }

  /** The buffer starts with the first character. */
  lemma FirstBytes(cs: seq<Rune>, tail: seq<Byte>)
    requires cs != []
    ensures var bs := EncodeAll(cs) + tail;
      var w := |Encode(cs[0])|;
      && |bs| >= w && Width(bs[0]) == w && bs[..w] == Encode(cs[0]) && bs[w..] == EncodeAll(cs[1..]) + tail
  {
    hide Encode, EncodeAll, Width;
    WidthIsLength(cs[0]);
    EncodeFront(cs[0], cs[1..]);
    assert [cs[0]] + cs[1..] == cs;
    Split(Encode(cs[0]), EncodeAll(cs[1..]), tail);
  }

  lemma Split(a: seq<Byte>, b: seq<Byte>, c: seq<Byte>)
    ensures (a + b + c)[..|a|] == a && (a + b + c)[|a|..] == b + c
  {
  }

  lemma EncodeNone()
    ensures EncodeAll([]) == []
  {
  }

  lemma Short(bs: seq<Byte>, e: Encoding)
    requires bs != [] && StepOf(bs, e).Incomplete?
    ensures |bs| < 4
  {
  }

  lemma Unfinished(bs: seq<Byte>, e: Encoding, offset: nat)
    requires bs != [] && StepOf(bs, e).Incomplete?
    ensures Decode(bs, e, offset) == Text([], Some(Problem(StepOf(bs, e).problem, offset)))
  {
    hide StepOf;
  }

  /** In UTF-8 a character takes at most twice the bytes that it takes in its encoding. */
  lemma NotLonger(bs: seq<Byte>, e: Encoding)
    requires bs != [] && StepOf(bs, e).Char?
    ensures |Encode(StepOf(bs, e).value)| <= 2 * StepOf(bs, e).width
  {
    if e == Utf8Encoding {
      Encodes8(bs);
    }
  }

  /** Reads everything, `wanted` characters at a time. Whatever pieces the bytes come in, the
    * result is the text in UTF-8 and one NUL, or the problem that the bytes have. */
  method ReadAll(script: seq<Reply>, wanted: nat) returns (out: seq<Byte>, error: Option<Problem>)
    requires 1 <= wanted <= MOST_WANTED
    ensures Clean(script) ==> error == Expected(All(script)).problem
    ensures error.None? ==> out == EncodeAll(Expected(All(script)).chars) + [0]
    ensures error.Some? ==> out <= EncodeAll(Expected(All(script)).chars)
  {
    hide Encode, EncodeAll, Decode, Expected, Clean, All;
    var r := new Reader(script);
    ghost var text := Expected(r.input);
    out := [];
    EncodeNone();
    while true
      invariant fresh(r) && fresh(r.raw) && fresh(r.buffer) && r.AtRest() && r.input == All(script)
      invariant Clean(script) ==> Clean(r.script)
      invariant out == EncodeAll(r.taken) && r.taken <= text.chars
      decreases |text.chars| - |r.taken|
    {
      var ok := r.UpdateBuffer(wanted);
      if !ok {
        PrefixBytes(r.taken, text.chars);
        return out, r.error;
      }
      r.WholeText();
      var bytes, nul := r.Drain();
      out := out + bytes;
      if nul {
        return out + [0], None;
      }
    }
  }

  lemma PrefixBytes(a: seq<Rune>, b: seq<Rune>)
    requires a <= b
    ensures EncodeAll(a) <= EncodeAll(b)
  {
    hide EncodeAll;
    EncodeConcat(a, b[|a|..]);
    assert a + b[|a|..] == b;
  }
}
