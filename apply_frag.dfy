/**
 * scripts/apply_frag.js: splices a handler fragment into the chat route just
 * before the first occurrence of the category-block comment, unless a
 * `PASO_2_ESPERANDO_SERVICIO` step test is already present.  The route's
 * text and the fragment's text are the inputs; what is written, if
 * anything, is the result.
 */
module ApplyFrag {
  import opened Text

  const Marker: string := "// --- PASO 2: Selección data-driven del servicio ---"
  const Guard: string := "estado.step === 'PASO_2_ESPERANDO_SERVICIO'"

  /** What the script writes: `None` when it reports the marker missing or the handler present. */
  function InsertFragment(s: string, frag: string): Option<string>
  {
    var idx := IndexOf(s, Marker);
    if idx.Some? && !Contains(s, Guard) then Some(s[..idx.value] + frag + s[idx.value..]) else None
  }

  /** The script, step by step; `indexOf` answers -1 for a missing marker. */
  method ApplyFragScript(src: string, frag: string) returns (written: Option<string>)
    ensures written == InsertFragment(src, frag)
  {
    var s := src;
    var idx: int := -1;
    var found := IndexOf(s, Marker);
    if found.Some? {
      idx := found.value;
    }
    if idx != -1 && !Contains(s, Guard) {
      s := s[..idx] + frag + s[idx..];
      written := Some(s);
    } else {
      written := None;
    }
  }

  /** Nothing is written exactly when the marker is missing or the guard text is present. */
  lemma NotWrittenIff(s: string, frag: string)
    ensures InsertFragment(s, frag).None? <==> !Contains(s, Marker) || Contains(s, Guard)
  {
  }

  /**
   * A written file keeps the text before the first marker and from the
   * marker on; the fragment sits in between, so the marker now follows it.
   */
  lemma FragmentBeforeFirstMarker(s: string, frag: string)
    requires InsertFragment(s, frag).Some?
    ensures var out := InsertFragment(s, frag).value;
      var idx := IndexOf(s, Marker).value;
      && OccursAt(s, Marker, idx) && (forall j: nat :: j < idx ==> !OccursAt(s, Marker, j))
      && |out| == |s| + |frag|
      && out[..idx] == s[..idx]
      && out[idx..idx + |frag|] == frag
      && out[idx + |frag|..] == s[idx..]
      && OccursAt(out, Marker, idx + |frag|)
  {
    var out := InsertFragment(s, frag).value;
    var idx := IndexOf(s, Marker).value;
    assert out[idx + |frag|..] == s[idx..];
    assert out[idx + |frag|..idx + |frag| + |Marker|] == s[idx..idx + |Marker|];
  }

  /** The file after a run: what was written, or the original. */
  function FileAfter(s: string, frag: string): string
  {
    var w := InsertFragment(s, frag);
    if w.Some? then w.value else s
  }

  /** A fragment holding the guard text makes any later run a no-op. */
  lemma SecondRunNoOp(s: string, frag: string, frag2: string)
    requires Contains(frag, Guard)
    ensures InsertFragment(FileAfter(s, frag), frag2).None?
  {
    var w := InsertFragment(s, frag);
    if w.Some? {
      var idx := IndexOf(s, Marker).value;
      ContainsInLeft(s[..idx] + frag, s[idx..], Guard) by {
        ContainsInRight(s[..idx], frag, Guard);
      }
    }
  }
}
