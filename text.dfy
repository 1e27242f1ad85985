/** Accent- and case-folding of search text (the person repository's
    normalizeText and removeVietnameseAccent), and the case-insensitive
    substring match that stands for an unescaped "$regex" with option "i".
    The Unicode tables the runtime consults (simple lower-case mapping and the
    Mn, non-spacing mark, category) are a parameter. */
module TextNormalize {

  /** The runtime's Unicode tables: the rune-wise lower-case mapping and membership of category Mn. */
  datatype Unicode = Unicode(toLower: char -> char, isMn: char -> bool)

  /** The precomposed lower-case Vietnamese vowels folded to each base letter, and d with stroke. */
  const AVowels: set<char> := {'à', 'á', 'ả', 'ã', 'ạ', 'â', 'ầ', 'ấ', 'ẩ', 'ẫ', 'ậ', 'ă', 'ằ', 'ắ', 'ẳ', 'ẵ', 'ặ'}
  const EVowels: set<char> := {'è', 'é', 'ẻ', 'ẽ', 'ẹ', 'ê', 'ề', 'ế', 'ể', 'ễ', 'ệ'}
  const IVowels: set<char> := {'ì', 'í', 'ỉ', 'ĩ', 'ị'}
  const OVowels: set<char> := {'ò', 'ó', 'ỏ', 'õ', 'ọ', 'ô', 'ồ', 'ố', 'ổ', 'ỗ', 'ộ', 'ơ', 'ờ', 'ớ', 'ở', 'ỡ', 'ợ'}
  const UVowels: set<char> := {'ù', 'ú', 'ủ', 'ũ', 'ụ', 'ư', 'ừ', 'ứ', 'ử', 'ữ', 'ự'}
  const YVowels: set<char> := {'ỳ', 'ý', 'ỷ', 'ỹ', 'ỵ'}
  const DStroke: set<char> := {'đ'}

  function BaseOf(c: char): (b: char)
    ensures b in {'a', 'e', 'i', 'o', 'u', 'y', 'd'}
  {
    if c in AVowels then 'a'
    else if c in EVowels then 'e'
    else if c in IVowels then 'i'
    else if c in OVowels then 'o'
    else if c in UVowels then 'u'
    else if c in YVowels then 'y'
    else 'd'
  }

  /** The accent table: each accented vowel (and d with stroke) to its base letter. */
  const AccentMap: map<char, char> :=
    map c | c in AVowels + EVowels + IVowels + OVowels + UVowels + YVowels + DStroke :: BaseOf(c)

  /** The letters AccentMap folds to. */
  const BaseLetters: set<char> := {'a', 'e', 'i', 'o', 'u', 'y', 'd'}

  /** Every rune of the set lies outside ASCII. */
  predicate NonAscii(s: set<char>) {
    forall c :: c in s ==> c as int > 127
  }

  lemma VowelSetsNonAscii()
    ensures NonAscii(AVowels) && NonAscii(EVowels) && NonAscii(IVowels)
    ensures NonAscii(OVowels) && NonAscii(UVowels) && NonAscii(YVowels) && NonAscii(DStroke)
  {
    assert NonAscii(AVowels);
    assert NonAscii(EVowels);
    assert NonAscii(IVowels);
    assert NonAscii(OVowels);
    assert NonAscii(UVowels);
    assert NonAscii(YVowels);
  }

  /** Every key of the accent table lies outside ASCII. */
  lemma AccentKeysNonAscii(c: char)
    requires c in AccentMap
    ensures c as int > 127
  {
    VowelSetsNonAscii();
    assert c in AVowels || c in EVowels || c in IVowels || c in OVowels || c in UVowels || c in YVowels || c in DStroke;
  }

  /** Every key of the accent table lies outside ASCII; every base letter inside it. */
  lemma AccentMapShape()
    ensures forall c :: c in AccentMap ==> AccentMap[c] in BaseLetters
    ensures forall c :: c in AccentMap ==> c as int > 127
    ensures forall c :: c in BaseLetters ==> c !in AccentMap
  {
    forall c | c in AccentMap ensures AccentMap[c] in BaseLetters && c as int > 127 {
      AccentKeysNonAscii(c);
      assert AccentMap[c] == BaseOf(c);
    }
    forall c | c in BaseLetters ensures c !in AccentMap {
      assert c as int < 128;
      if c in AccentMap {
        AccentKeysNonAscii(c);
      }
    }
  }

  /** removeVietnameseAccent: a key of AccentMap becomes its base letter, anything else is kept. */
  function RemoveVietnameseAccent(r: char): (c: char)
    ensures r in AccentMap ==> c == AccentMap[r] && c in BaseLetters
    ensures r !in AccentMap ==> c == r
    ensures c !in AccentMap
  {
    AccentMapShape();
    if r in AccentMap then AccentMap[r] else r
  }

  /** strings.ToLower, rune by rune. */
  function LowerAll(u: Unicode, s: string): (t: string)
    ensures |t| == |s|
    ensures forall i :: 0 <= i < |s| ==> t[i] == u.toLower(s[i])
  {
    if s == [] then [] else LowerAll(u, s[..|s| - 1]) + [u.toLower(s[|s| - 1])]
  }

  /** What the loop appends for one rune of the lower-cased text. */
  function Fold(u: Unicode, r: char): string {
    if u.isMn(r) then [] else [RemoveVietnameseAccent(r)]
  }

  /** The loop's output over a prefix of the lower-cased text. */
  function FoldAll(u: Unicode, s: string): string {
    if s == [] then [] else FoldAll(u, s[..|s| - 1]) + Fold(u, s[|s| - 1])
  }

  /** normalizeText: lower-case the text, then drop every Mn rune and fold
      every accented vowel, keeping all other runes in order. */
  function Normalize(u: Unicode, input: string): string {
    FoldAll(u, LowerAll(u, input))
  }

  /** One more rune of the lower-cased text adds what Fold gives for it. */
  lemma FoldAllStep(u: Unicode, s: string, i: nat)
    requires i < |s|
    ensures FoldAll(u, s[..i + 1]) == FoldAll(u, s[..i]) + Fold(u, s[i])
  {
    assert s[..i + 1][..i] == s[..i];
  }

  /** normalizeText as the source writes it: one pass over the lower-cased
      runes, appending to an output buffer. */
  method NormalizeText(u: Unicode, input: string) returns (output: string)
    ensures output == Normalize(u, input)
  {
    var lowered := LowerAll(u, input);
    output := [];
    var i := 0;
    while i < |lowered|
      invariant 0 <= i <= |lowered|
      invariant output == FoldAll(u, lowered[..i])
    {
      var r := lowered[i];
      FoldAllStep(u, lowered, i);
      if !u.isMn(r) {
        r := RemoveVietnameseAccent(r);
        output := output + [r];
      }
      i := i + 1;
    }
    assert lowered[..i] == lowered;
  }

  /** Every output rune is either a folded base letter or a lower-cased rune
      that is neither a mark nor an accented vowel. */
  lemma {:induction false} FoldAllRunes(u: Unicode, s: string)
    ensures |FoldAll(u, s)| <= |s|
    ensures forall c :: c in FoldAll(u, s) ==> c !in AccentMap
    ensures forall c :: c in FoldAll(u, s) ==> c in BaseLetters || (c in s && !u.isMn(c))
  {
    if s != [] {
      FoldAllRunes(u, s[..|s| - 1]);
      var last := s[|s| - 1];
      forall c | c in FoldAll(u, s[..|s| - 1]) ensures c in s[..|s| - 1] ==> c in s {
        if c in s[..|s| - 1] {
          var j :| 0 <= j < |s| - 1 && s[..|s| - 1][j] == c;
          assert s[j] == c;
        }
      }
    }
  }

  /** The normalised text has no accented vowel left and no more runes than the input. */
  lemma NormalizeBounds(u: Unicode, input: string)
    ensures |Normalize(u, input)| <= |input|
    ensures forall c :: c in Normalize(u, input) ==> c !in AccentMap
  {
    FoldAllRunes(u, LowerAll(u, input));
  }

  /** What the real Unicode tables satisfy and idempotence needs: lower-casing
      is idempotent, and the base letters are lower-case and are not marks. */
  ghost predicate WellBehaved(u: Unicode) {
    && (forall c :: u.toLower(u.toLower(c)) == u.toLower(c))
    && (forall c :: c in BaseLetters ==> u.toLower(c) == c && !u.isMn(c))
  }

  /** A rune that normalisation leaves alone. */
  ghost predicate Stable(u: Unicode, c: char) {
    u.toLower(c) == c && !u.isMn(c) && c !in AccentMap
  }

  /** Folding keeps a text with no marks and no accented vowels. */
  lemma {:induction false} FoldAllStable(u: Unicode, s: string)
    requires forall i :: 0 <= i < |s| ==> !u.isMn(s[i]) && s[i] !in AccentMap
    ensures FoldAll(u, s) == s
  {
    if s != [] {
      FoldAllStable(u, s[..|s| - 1]);
      assert s == s[..|s| - 1] + [s[|s| - 1]];
    }
  }

  lemma NormalizeStable(u: Unicode, s: string)
    requires forall c :: c in s ==> Stable(u, c)
    ensures Normalize(u, s) == s
  {
    assert forall i :: 0 <= i < |s| ==> Stable(u, s[i]);
    assert LowerAll(u, s) == s;
    FoldAllStable(u, s);
  }

  /** normalizeText(normalizeText(x)) == normalizeText(x) for tables that behave like Unicode's. */
  lemma NormalizeIdempotent(u: Unicode, input: string)
    requires WellBehaved(u)
    ensures Normalize(u, Normalize(u, input)) == Normalize(u, input)
  {
    var lowered := LowerAll(u, input);
    var out := Normalize(u, input);
    FoldAllRunes(u, lowered);
    forall c | c in out ensures Stable(u, c) {
      if c !in BaseLetters {
        var j :| 0 <= j < |lowered| && lowered[j] == c;
        assert u.toLower(input[j]) == c;
      }
    }
    NormalizeStable(u, out);
  }

  /** Tables that lower-case ASCII letters only and classify nothing as a mark. */
  function AsciiLower(c: char): char {
    if 'A' <= c <= 'Z' then (c as int + 32) as char else c
  }

  const AsciiTables := Unicode(AsciiLower, (c: char) => false)

  /** The accent removal applied to every rune of s, in order. */
  function StripAccents(s: string): (t: string)
    ensures |t| == |s|
  {
    if s == [] then [] else StripAccents(s[..|s| - 1]) + [RemoveVietnameseAccent(s[|s| - 1])]
  }

  /** Without marks in the text, folding is the rune-wise accent removal. */
  lemma {:induction false} FoldAllNoMarks(u: Unicode, s: string)
    requires forall i :: 0 <= i < |s| ==> !u.isMn(s[i])
    ensures FoldAll(u, s) == StripAccents(s)
  {
    if s != [] {
      FoldAllNoMarks(u, s[..|s| - 1]);
    }
  }

  /** A name from the data model folds to its plain lower-case form. */
  lemma NormalizeExample()
    ensures Normalize(AsciiTables, "Văn") == "van"
  {
    var lowered := LowerAll(AsciiTables, "Văn");
    assert lowered == "văn";
    FoldAllNoMarks(AsciiTables, lowered);
    assert RemoveVietnameseAccent('ă') == 'a' by {
      assert 'ă' in AVowels;
      assert 'ă' in AccentMap;
    }
    assert RemoveVietnameseAccent('v') == 'v' by {
      if 'v' in AccentMap { AccentKeysNonAscii('v'); }
    }
    assert RemoveVietnameseAccent('n') == 'n' by {
      if 'n' in AccentMap { AccentKeysNonAscii('n'); }
    }
    assert lowered[..2][..1] == "v" && lowered[..2] == "vă";
    assert StripAccents("v") == "v";
    assert StripAccents("vă") == "va";
  }

  /** p occurs in s starting at index i. */
  predicate OccursAt(p: string, s: string, i: nat) {
    i + |p| <= |s| && s[i..i + |p|] == p
  }

  /** p occurs as a contiguous run inside s. */
  predicate IsSubstring(p: string, s: string) {
    exists i: nat | i <= |s| :: OccursAt(p, s, i)
  }

  /** An unescaped case-insensitive regular expression without
      metacharacters: substring containment after lower-casing both sides. */
  predicate ContainsFold(u: Unicode, s: string, pattern: string) {
    IsSubstring(LowerAll(u, pattern), LowerAll(u, s))
  }
}
