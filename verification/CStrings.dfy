/**
  C strings in character arrays: what the library functions used by the exporters and collectors
  do to a buffer.
 */
module CStrings {
  import opened Wrappers
  import opened Decimals

  const NUL: char := '\0'

  /** The buffer starts with this C string. */
  ghost predicate Holds(buffer: array<char>, text: string)
    reads buffer
  {
    NUL !in text && |text| < buffer.Length && buffer[..|text|] == text && buffer[|text|] == NUL
  }

  /** `strlen` of the characters before the first NUL. */
  function Strlen(s: string): nat { Span(s, c => c != NUL) }

  /** The C string at the start of a buffer. */
  lemma StrlenOf(buffer: string, text: string)
    requires text + [NUL] <= buffer && NUL !in text
    ensures Strlen(buffer) == |text| && buffer[..|text|] == text
  {
    assert buffer == text + buffer[|text|..] && buffer[|text|] == NUL;
    assert forall i :: 0 <= i < |text| ==> text[i] in text;
    SpanStops(text, buffer[|text|..], c => c != NUL);
  }

  /** Reads the C string at the start of a buffer. */
  method TextIn(buffer: array<char>, ghost text: string) returns (r: string)
    requires Holds(buffer, text)
    ensures r == text
  {
    assert text + [NUL] <= buffer[..];
    StrlenOf(buffer[..], text);
    r := buffer[..Strlen(buffer[..])];
  }

  /**
    `snprintf(buffer + offset, buffer.Length - offset, ...)` of an already formatted text: writes
    what fits, ends it with NUL and gives the length the text would have needed.
   */
  method Snprintf(buffer: array<char>, offset: nat, text: string) returns (written: nat)
    requires offset < buffer.Length
    modifies buffer
    ensures written == |text|
    ensures var kept := if |text| < buffer.Length - offset then |text| else buffer.Length - offset - 1;
      && buffer[..offset] == old(buffer[..offset])
      && buffer[offset..offset + kept] == text[..kept]
      && buffer[offset + kept] == NUL
      && buffer[offset + kept + 1..] == old(buffer[offset + kept + 1..])
  {
    var kept := if |text| < buffer.Length - offset then |text| else buffer.Length - offset - 1;
    forall i | 0 <= i < kept {
      buffer[offset + i] := text[i];
    }
    buffer[offset + kept] := NUL;
    written := |text|;
  }

  /** What a buffer of this size keeps of a text. */
  function Cut(text: string, size: nat): string
    requires size > 0
  {
    if |text| < size then text else text[..size - 1]
  }

  /** `snprintf` into a whole buffer leaves the text cut to the buffer. */
  method Format(buffer: array<char>, text: string)
    requires buffer.Length > 0 && NUL !in text
    modifies buffer
    ensures Holds(buffer, Cut(text, buffer.Length))
  {
    var written := Snprintf(buffer, 0, text);
    ghost var kept := Cut(text, buffer.Length);
    assert buffer[..|kept|] == buffer[0..0 + |kept|] == kept;
    assert forall c <- kept :: c in text;
  }

  /** `strcat(buffer, text)`. A failure stands for a write past the end of the buffer, which C leaves undefined. */
  method Strcat(buffer: array<char>, text: string, ghost before: string) returns (r: Outcome)
    requires Holds(buffer, before) && NUL !in text
    modifies buffer
    ensures r.Pass? <==> |before| + |text| < buffer.Length
    ensures r.Pass? ==> Holds(buffer, before + text)
  {
    assert before + [NUL] <= buffer[..];
    StrlenOf(buffer[..], before);
    var n := Strlen(buffer[..]);
    if n + |text| >= buffer.Length {
      return Fail(-1);
    }
    forall i | 0 <= i < |text| {
      buffer[n + i] := text[i];
    }
    buffer[n + |text|] := NUL;
    assert buffer[..n] == before;
    assert buffer[..n + |text|] == before + text;
    r := Pass;
  }

  /** `strncpy(dst, src, count)`, where `src` holds the C string `text`. */
  method Strncpy(dst: array<char>, src: array<char>, ghost text: string, count: nat)
    requires dst != src && count <= dst.Length && Holds(src, text)
    modifies dst
    ensures forall k :: 0 <= k < count ==> dst[k] == if k < |text| then text[k] else NUL
    ensures forall k :: count <= k < dst.Length ==> dst[k] == old(dst[k])
  {
    assert forall k :: 0 <= k < |text| ==> src[k] == src[..|text|][k] && text[k] in text;
    var ended := false;
    for i := 0 to count
      invariant ended <==> i > |text|
      invariant forall k :: 0 <= k < i ==> dst[k] == if k < |text| then text[k] else NUL
      invariant forall k :: count <= k < dst.Length ==> dst[k] == old(dst[k])
    {
      if !ended && src[i] == NUL {
        ended := true;
      }
      dst[i] := if ended then NUL else src[i];
    }
  }
}
