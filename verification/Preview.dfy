/** Payload previews: encoding stops as soon as the limit is known to be exceeded. */
module Preview {

  function Truncate(raw: string, limit: nat): (r: string)
    ensures |r| <= limit
    ensures |raw| > limit > 3 ==> r == raw[..limit - 3] + "..."
  {
    if |raw| <= limit then raw
    else if limit <= 3 then raw[..limit]
    else raw[..limit - 3] + "..."
  }

  // A string, or a value that an encoder turns into chunks. The encoder may give up after
  // some of them; then the plain text of the value is used.
  datatype Payload = Text(s: string) | Encoded(chunks: seq<string>, fails: bool, plain: string)

  function Joined(chunks: seq<string>): string {
    if chunks == [] then "" else Joined(chunks[..|chunks| - 1]) + chunks[|chunks| - 1]
  }

  // What the preview of a text is: the text itself, if it is within the limit; else its
  // beginning, cut to the limit, with three dots at the end where there is room for them.
  predicate Shows(text: string, limit: nat, preview: string, truncated: bool) {
    && (truncated <==> |text| > limit)
    && (|text| <= limit ==> preview == text)
    && (|text| > limit ==> |preview| == limit)
    && (|text| > limit > 3 ==> preview[..limit - 3] == text[..limit - 3] && preview[limit - 3..] == "...")
    && (|text| > limit && limit <= 3 ==> preview <= text)
  }

  // What the loop has kept of a text: all of it, or one character more than the limit.
  function Kept(text: string, limit: nat): string {
    if |text| <= limit + 1 then text else text[..limit + 1]
  }

  lemma {:induction false} JoinedPrefix(chunks: seq<string>, i: nat)
    requires i <= |chunks|
    ensures Joined(chunks[..i]) <= Joined(chunks)
    decreases |chunks| - i
  {
    if i < |chunks| {
      JoinedPrefix(chunks, i + 1);
      assert chunks[..i + 1][..i] == chunks[..i];
    } else {
      assert chunks[..i] == chunks;
    }
  }

  lemma CutAtLimit(text: string, prefix: string, limit: nat)
    requires prefix <= text && |prefix| > limit
    ensures Truncate(prefix, limit) == Truncate(text, limit) && |text| > limit
  {
    assert prefix[..limit] == text[..limit];
    if limit > 3 {
      assert prefix[..limit - 3] == text[..limit - 3];
    }
  }

  // The loop: chunks are kept until one character beyond the limit. Without a break the
  // encoder comes to its end, or to where it gives up.
  method KeepChunks(chunks: seq<string>, limit: nat) returns (raw: string, truncated: bool)
    ensures raw == Kept(Joined(chunks), limit) && |raw| <= limit + 1
    ensures |Joined(chunks)| > limit + 1 ==> truncated
    ensures truncated ==> |Joined(chunks)| > limit
    ensures (forall k :: 0 <= k < |chunks| ==> chunks[k] != "") ==> (truncated <==> |Joined(chunks)| > limit + 1)
  {
    raw, truncated := "", false;
    var currentLen := 0;
    for i := 0 to |chunks|
      invariant raw == Joined(chunks[..i]) && currentLen == |raw| <= limit + 1 && !truncated
    {
      assert chunks[..i + 1][..i] == chunks[..i];
      JoinedPrefix(chunks, i);
      JoinedPrefix(chunks, i + 1);
      var chunk := chunks[i];
      var remaining := limit + 1 - currentLen;
      if remaining <= 0 {
        truncated := true;
        return;
      }
      if |chunk| <= remaining {
        raw := raw + chunk;
        currentLen := currentLen + |chunk|;
        continue;
      }
      raw := raw + chunk[..remaining];
      truncated := true;
      assert raw == Joined(chunks)[..limit + 1];
      return;
    }
    assert chunks[..|chunks|] == chunks;
  }

  // For every chunking and every limit the early stop gives the preview of the whole text. An
  // encoder that gives up is noticed exactly when its chunks fit in one character more than
  // the limit; beyond that the preview shows the beginning of what it had encoded.
  method PreviewWithLimit(value: Payload, limit: nat) returns (preview: string, truncated: bool)
    ensures value.Text? ==> Shows(value.s, limit, preview, truncated)
    ensures value.Encoded? && !value.fails ==> Shows(Joined(value.chunks), limit, preview, truncated)
    ensures value.Encoded? && value.fails && (forall k :: 0 <= k < |value.chunks| ==> value.chunks[k] != "") ==>
              Shows(if |Joined(value.chunks)| > limit + 1 then Joined(value.chunks) else value.plain, limit, preview, truncated)
  {
    if value.Text? {
      return Truncate(value.s, limit), |value.s| > limit;
    }
    var raw, cut := KeepChunks(value.chunks, limit);
    if value.fails && !cut {
      raw := value.plain;
      return Truncate(raw, limit), |raw| > limit;
    }
    ghost var full := Joined(value.chunks);
    if |raw| > limit {
      cut := true;
      CutAtLimit(full, raw, limit);
    }
    if !cut {
      return raw, false;
    }
    return Truncate(raw, limit), true;
  }
}
