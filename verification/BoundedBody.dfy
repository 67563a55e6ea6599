/**
 * Bounded reading of a provider response, and cutting of error text at a character
 * boundary.
 */
module BoundedBody {
  import opened Options

  type Byte = b: int | 0 <= b < 256

  /** `AI_PROVIDER_RESPONSE_BODY_LIMIT_BYTES`. */
  const LIMIT := 8 * 1024 * 1024

  /** What one read of the body yields; the end of the list is the end of the body. */
  datatype Chunk = Data(bytes: seq<Byte>) | Failure

  datatype Body = Body(bytes: seq<Byte>, truncated: bool)

  // -------------------------------------------------------- the bounded body

  /** The bytes that arrive before the end or the first failure. */
  function Arrived(chunks: seq<Chunk>): seq<Byte> {
    if chunks == [] || chunks[0].Failure? then [] else chunks[0].bytes + Arrived(chunks[1..])
  }

  predicate Fails(chunks: seq<Chunk>) {
    exists k :: 0 <= k < |chunks| && chunks[k].Failure?
  }

  lemma {:induction false} ArrivedInParts(chunks: seq<Chunk>, i: nat)
    requires i <= |chunks| && !Fails(chunks[..i])
    ensures Arrived(chunks) == Arrived(chunks[..i]) + Arrived(chunks[i..])
  {
    if i == 0 {
      assert chunks[0..] == chunks;
    } else {
      assert chunks[..i][0] == chunks[0] && chunks[..i][1..] == chunks[1..][..i - 1];
      assert chunks[1..][i - 1..] == chunks[i..];
      var before := chunks[1..][..i - 1];
      forall k | 0 <= k < |before| ensures before[k].Data? { assert chunks[..i][k + 1].Data?; }
      ArrivedInParts(chunks[1..], i - 1);
    }
  }

  lemma {:induction false} ArrivedPush(chunks: seq<Chunk>, c: Chunk)
    requires !Fails(chunks) && c.Data?
    ensures Arrived(chunks + [c]) == Arrived(chunks) + c.bytes && !Fails(chunks + [c])
  {
    ArrivedInParts(chunks + [c], |chunks|);
    assert (chunks + [c])[..|chunks|] == chunks && (chunks + [c])[|chunks|..] == [c];
    assert Arrived([c]) == c.bytes + [];
  }

  /**
   * `take_bounded_response_body`: at most `LIMIT` bytes, flagged when there were more,
   * however the body was cut into chunks; the error carries what had arrived.
   */
  method TakeBoundedResponseBody(declared: Option<nat>, chunks: seq<Chunk>) returns (r: Result<Body, Body>)
    ensures declared.Some? && declared.value > LIMIT ==> r == Ok(Body([], true))
    ensures declared.None? || declared.value <= LIMIT ==>
      var arrived := Arrived(chunks);
      r == if |arrived| > LIMIT then Ok(Body(arrived[..LIMIT], true))
           else if Fails(chunks) then Err(Body(arrived, false))
           else Ok(Body(arrived, false))
  {
    if declared.Some? && declared.value > LIMIT {
      return Ok(Body([], true));
    }
    var bytes: seq<Byte> := [];
    var i := 0;
    while i < |chunks|
      invariant i <= |chunks| && !Fails(chunks[..i]) && bytes == Arrived(chunks[..i]) && |bytes| <= LIMIT
    {
      ArrivedInParts(chunks, i);
      if chunks[i].Failure? {
        assert bytes + [] == bytes;
        return Err(Body(bytes, false));
      }
      var chunk := chunks[i].bytes;
      var remaining := LIMIT - |bytes|;
      assert chunks[..i + 1] == chunks[..i] + [chunks[i]];
      ArrivedPush(chunks[..i], chunks[i]);
      if |chunk| > remaining {
        ArrivedInParts(chunks, i + 1);
        assert Arrived(chunks)[..LIMIT] == bytes + chunk[..remaining];
        return Ok(Body(bytes + chunk[..remaining], true));
      }
      bytes := bytes + chunk;
      i := i + 1;
    }
    assert chunks[..i] == chunks;
    return Ok(Body(bytes, false));
  }

  // ---------------------------------------------------------- cutting of text

  /** The length of a character in UTF-8. */
  function Utf8Length(c: char): nat {
    if c < '\U{0080}' then 1 else if c < '\U{0800}' then 2 else if c < '\U{10000}' then 3 else 4
  }

  /** `n` bytes have room for 7, 11, 16 or 21 bits of the code point (section 3 of RFC 3629). */
  function Room(n: nat): int {
    if n == 0 then 0 else if n == 1 then 0x80 else if n == 2 then 0x80 * 16 else 32 * Room(n - 1)
  }

  /** A character takes the fewest bytes with room for it. */
  lemma Utf8LengthIsLeast(c: char)
    ensures 1 <= Utf8Length(c) <= 4
    ensures Room(Utf8Length(c) - 1) <= c as int < Room(Utf8Length(c))
  {
    assert Room(3) == 32 * Room(2) && Room(4) == 32 * Room(3);
  }

  function ByteLength(s: string): nat {
    if s == "" then 0 else Utf8Length(s[0]) + ByteLength(s[1..])
  }

  /** The longest run of whole characters that fits. */
  function Truncated(s: string, max: nat): string {
    if s == "" || Utf8Length(s[0]) > max then "" else [s[0]] + Truncated(s[1..], max - Utf8Length(s[0]))
  }

  /** The number of characters before byte `end`, when that is a character boundary. */
  function Boundary(s: string, end: nat): Option<nat> {
    if end == 0 then Some(0)
    else if s == "" || Utf8Length(s[0]) > end then None
    else
      var rest := Boundary(s[1..], end - Utf8Length(s[0]));
      if rest.Some? then Some(rest.value + 1) else None
  }

  lemma {:induction false} BoundaryIsTruncation(s: string, max: nat, end: nat)
    requires end <= max < ByteLength(s) && Boundary(s, end).Some?
    requires forall k :: end < k <= max ==> Boundary(s, k).None?
    ensures Boundary(s, end).value <= |s| && s[..Boundary(s, end).value] == Truncated(s, max)
    decreases |s|
  {
    if end == 0 {
      assert Utf8Length(s[0]) <= max ==> Boundary(s, Utf8Length(s[0])).None?;
      assert Boundary(s[1..], 0) == Some(0);
    } else {
      var w := Utf8Length(s[0]);
      forall k | end - w < k <= max - w ensures Boundary(s[1..], k).None? {
        assert Boundary(s, k + w).None?;
      }
      BoundaryIsTruncation(s[1..], max - w, end - w);
      var n := Boundary(s[1..], end - w).value;
      assert s[..n + 1] == [s[0]] + s[1..][..n];
    }
  }

  lemma {:induction false} ShortIsWhole(s: string, max: nat)
    requires ByteLength(s) <= max
    ensures Truncated(s, max) == s
    decreases |s|
  {
    if s != "" { ShortIsWhole(s[1..], max - Utf8Length(s[0])); }
  }

  /** `truncate_utf8`: walk back from the limit to a character boundary. */
  method TruncateUtf8(s: string, max: nat) returns (r: string, cut: bool)
    ensures r == Truncated(s, max) && cut == (ByteLength(s) > max)
  {
    if ByteLength(s) <= max {
      ShortIsWhole(s, max);
      return s, false;
    }
    var end := max;
    while Boundary(s, end).None?
      invariant 0 <= end <= max && forall k :: end < k <= max ==> Boundary(s, k).None?
      decreases end
    {
      end := end - 1;
    }
    BoundaryIsTruncation(s, max, end);
    return s[..Boundary(s, end).value], true;
  }

  /** The cut text is a prefix within the limit, and the next character would not have fitted. */
  lemma {:induction false} TruncatedIsLongest(s: string, max: nat)
    ensures var r := Truncated(s, max);
      && r <= s && ByteLength(r) <= max
      && (|r| < |s| ==> ByteLength(r) + Utf8Length(s[|r|]) > max)
    decreases |s|
  {
    if s != "" && Utf8Length(s[0]) <= max {
      TruncatedIsLongest(s[1..], max - Utf8Length(s[0]));
      var r := Truncated(s, max);
      assert r[1..] == Truncated(s[1..], max - Utf8Length(s[0]));
      assert s == [s[0]] + s[1..];
    }
  }
}
