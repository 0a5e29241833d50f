/** Deploy version text (data/version.go). */
module Versions {
  import opened Strings

  const DefaultVersion := "0.0.0"

  /** Simple case folding of the characters that fold to an ASCII letter of "unknown" or to themselves. */
  function Fold(c: char): char {
    if 'A' <= c <= 'Z' then (c as int + 32) as char
    else if c == '\U{212A}' then 'k'
    else c
  }

  predicate EqualFold(a: string, b: string) {
    |a| == |b| && forall i :: 0 <= i < |a| ==> Fold(a[i]) == Fold(b[i])
  }

  function Normalize(raw: string): string {
    var s := TrimSpace(raw);
    if s == "" || EqualFold(s, "unknown") then DefaultVersion else s
  }

  lemma DefaultIsNormal()
    ensures Normalize(DefaultVersion) == DefaultVersion
  {
    NothingToStrip(DefaultVersion, GoSpace);
  }

  lemma NormalizeIdempotent(raw: string)
    ensures Normalize(Normalize(raw)) == Normalize(raw)
  {
    hide Strip;
    StripEnds(raw, GoSpace);
    DefaultIsNormal();
  }

  /** Blank text and "unknown", in any case, stand for the default version; any other text for itself, without the
      space at its ends. */
  lemma NormalizeExactly(raw: string)
    ensures exists before, core, after ::
              && raw == before + core + after && AllSpace(before, GoSpace) && AllSpace(after, GoSpace)
              && (core != "" ==> !GoSpace(core[0]) && !GoSpace(core[|core| - 1]))
              && Normalize(raw) == if core == "" || Unknown(core) then "0.0.0" else core
  {
    hide Strip;
    StripExactly(raw, GoSpace);
    var core := TrimSpace(raw);
    UnknownExactly(core);
    var before, after :|
      raw == before + core + after && AllSpace(before, GoSpace) && AllSpace(after, GoSpace);
  }

  /** The word in any mixture of cases; the Kelvin sign folds to "k". */
  predicate Unknown(s: string) {
    && |s| == 7
    && s[0] in "uU" && s[1] in "nN" && s[2] in "kK\U{212A}" && s[3] in "nN" && s[4] in "oO" && s[5] in "wW"
    && s[6] in "nN"
  }

  lemma UnknownExactly(s: string)
    ensures EqualFold(s, "unknown") <==> Unknown(s)
  {
    if |s| == 7 {
      forall i | 0 <= i < 7
        ensures Fold("unknown"[i]) == "unknown"[i]
      {
      }
      assert EqualFold(s, "unknown") <==> forall i :: 0 <= i < 7 ==> Fold(s[i]) == "unknown"[i];
      assert (forall i :: 0 <= i < 7 ==> Fold(s[i]) == "unknown"[i]) <==>
          Fold(s[0]) == 'u' && Fold(s[1]) == 'n' && Fold(s[2]) == 'k' && Fold(s[3]) == 'n' && Fold(s[4]) == 'o'
          && Fold(s[5]) == 'w' && Fold(s[6]) == 'n';
    }
  }
}
