/**
  * Telling typed Quran: an index of word runs of the verified Quran, against the naive
  * reading of it, and what other words around a text can do to the answer.
  */
module TypedQuran {
  import opened Rasm

  const RUN: nat := 4
  const READING_RUN: nat := 3

  // ---------------------------------------------------------------- quran_index and typed_quran

  function RunLength(ws: Words): nat {
    if |ws| < RUN then |ws| else RUN
  }

  /** A full-length run of an ayah, or a whole shorter ayah of two words or more. */
  ghost predicate IsRunOf(g: Words, ws: Words) {
    |ws| >= 2 && |g| == RunLength(ws) && exists i | 0 <= i <= |ws| - |g| :: Stands(ws, g, i)
  }

  predicate Stands(ws: Words, g: Words, i: nat) {
    i + |g| <= |ws| && ws[i..i + |g|] == g
  }

  ghost predicate IsRunOfOne(g: Words, nfc: Text -> Text, ayat: seq<Text>) {
    exists k | 0 <= k < |ayat| :: IsRunOf(g, WordsOf(nfc, ayat[k]))
  }

  /** Runs of four words; of an ayah of two or three, itself. */
  lemma RunsAre(g: Words, ws: Words)
    ensures IsRunOf(g, ws) <==> (|ws| >= 4 && |g| == 4 && exists i: nat :: Stands(ws, g, i)) || ((|ws| == 2 || |ws| == 3) && g == ws)
  {
    if IsRunOf(g, ws) {
      var i :| 0 <= i <= |ws| - |g| && Stands(ws, g, i);
      assert |ws| < 4 ==> ws[0..|ws|] == ws;
    }
    if (|ws| == 2 || |ws| == 3) && g == ws {
      assert ws[0..|ws|] == ws;
      assert Stands(ws, g, 0);
    }
  }

  datatype Index = Index(grams: set<Words>, sizes: set<nat>)

  ghost predicate Indexes(grams: set<Words>, nfc: Text -> Text, ayat: seq<Text>) {
    forall g :: g in grams <==> IsRunOfOne(g, nfc, ayat)
  }

  /** quran_index over the ayat of every surah, one after the other */
  method QuranIndex(nfc: Text -> Text, ayat: seq<Text>) returns (index: Index)
    ensures Indexes(index.grams, nfc, ayat)
    ensures index.sizes == set g | g in index.grams :: |g|
  {
    var grams := {};
    for k := 0 to |ayat|
      invariant Indexes(grams, nfc, ayat[..k])
    {
      var folded := Fold(nfc, ayat[k]);
      var ws := Split(folded);
      assert ws == WordsOf(nfc, ayat[k]);
      var more := RunsOfAyah(ws);
      OneMoreAyah(grams, more, nfc, ayat[..k], ayat[k]);
      assert ayat[..k + 1] == ayat[..k] + [ayat[k]];
      grams := grams + more;
    }
    assert ayat[..|ayat|] == ayat;
    index := Index(grams, set g | g in grams :: |g|);
  }

  lemma OneMoreAyah(grams: set<Words>, more: set<Words>, nfc: Text -> Text, ayat: seq<Text>, ayah: Text)
    requires Indexes(grams, nfc, ayat) && forall g :: g in more <==> IsRunOf(g, WordsOf(nfc, ayah))
    ensures Indexes(grams + more, nfc, ayat + [ayah])
  {
    var all := ayat + [ayah];
    forall g ensures g in grams + more <==> IsRunOfOne(g, nfc, all) {
      if IsRunOfOne(g, nfc, ayat) {
        var k :| 0 <= k < |ayat| && IsRunOf(g, WordsOf(nfc, ayat[k]));
        assert all[k] == ayat[k];
      }
      if IsRunOf(g, WordsOf(nfc, ayah)) {
        assert all[|ayat|] == ayah;
      }
      if IsRunOfOne(g, nfc, all) {
        var k :| 0 <= k < |all| && IsRunOf(g, WordsOf(nfc, all[k]));
        assert k < |ayat| ==> all[k] == ayat[k];
      }
    }
  }

  method RunsOfAyah(ws: Words) returns (grams: set<Words>)
    ensures forall g :: g in grams <==> IsRunOf(g, ws)
  {
    grams := {};
    if |ws| < 2 {
      return;
    }
    var n := RunLength(ws);
    for i := 0 to |ws| - n + 1
      invariant forall g :: g in grams <==> |g| == n && exists j | 0 <= j < i :: Stands(ws, g, j)
    {
      var g := ws[i..i + n];
      assert Stands(ws, g, i);
      grams := grams + {g};
    }
  }

  /** typed_quran */
  method TypedQuran(nfc: Text -> Text, text: Text, index: Index) returns (found: bool)
    requires index.sizes == set g | g in index.grams :: |g|
    ensures found <==> exists g :: g in index.grams && Carries(WordsOf(nfc, text), g)
  {
    var folded := Fold(nfc, text);
    var ws := Split(folded);
    found := exists k | k in index.sizes :: HasWindow(ws, k, index.grams);
    if found {
      var k :| k in index.sizes && HasWindow(ws, k, index.grams);
      var i :| 0 <= i <= |ws| - k && IsWindowAt(ws, i, k, index.grams);
      assert Stands(ws, ws[i..i + k], i);
      assert Carries(ws, ws[i..i + k]);
    }
    if g :| g in index.grams && Carries(ws, g) {
      var i :| 0 <= i <= |ws| - |g| && Stands(ws, g, i);
      assert IsWindowAt(ws, i, |g|, index.grams);
      assert |g| in index.sizes && HasWindow(ws, |g|, index.grams);
    }
  }

  predicate HasWindow(ws: Words, k: nat, grams: set<Words>) {
    exists i | 0 <= i <= |ws| - k :: IsWindowAt(ws, i, k, grams)
  }

  predicate IsWindowAt(ws: Words, i: nat, k: nat, grams: set<Words>) {
    i + k <= |ws| && ws[i..i + k] in grams
  }

  ghost predicate Carries(ws: Words, g: Words) {
    exists i | 0 <= i <= |ws| - |g| :: Stands(ws, g, i)
  }

  /** What the two together mean: some window of the text is a run of some ayah. */
  ghost predicate IsTypedQuran(nfc: Text -> Text, text: Text, ayat: seq<Text>) {
    exists g :: IsRunOfOne(g, nfc, ayat) && Carries(WordsOf(nfc, text), g)
  }

  function Surrounded(before: Text, text: Text, after: Text): Text {
    before + [SPACE] + text + [SPACE] + after
  }

  lemma SurroundedWords(nfc: Text -> Text, before: Text, text: Text, after: Text)
    requires IsNfc(nfc)
    ensures WordsOf(nfc, Surrounded(before, text, after)) == WordsOf(nfc, before) + WordsOf(nfc, text) + WordsOf(nfc, after)
  {
    WordsAcrossSpace(nfc, before, text);
    WordsAcrossSpace(nfc, before + [SPACE] + text, after);
  }

  /** Words before and after a text never take its flag away. */
  lemma SurroundingKeepsTheFlag(nfc: Text -> Text, ayat: seq<Text>, before: Text, text: Text, after: Text)
    requires IsNfc(nfc) && IsTypedQuran(nfc, text, ayat)
    ensures IsTypedQuran(nfc, Surrounded(before, text, after), ayat)
  {
    var a, t, b := WordsOf(nfc, before), WordsOf(nfc, text), WordsOf(nfc, after);
    SurroundedWords(nfc, before, text, after);
    var g :| IsRunOfOne(g, nfc, ayat) && Carries(t, g);
    CarriedInside(a, t, b, g);
  }

  lemma CarriedInside(a: Words, t: Words, b: Words, g: Words)
    requires Carries(t, g)
    ensures Carries(a + t + b, g)
  {
    var i :| 0 <= i <= |t| - |g| && Stands(t, g, i);
    var all := a + t + b;
    assert all[|a| + i..|a| + i + |g|] == t[i..i + |g|];
    assert Stands(all, g, |a| + i);
  }

  // ---------------------------------------------------------------- quran_runs

  /** A run with its edge words in one of their forms. */
  ghost predicate IsRunForm(r: Words, ws: Words) {
    |r| == READING_RUN && exists i | 0 <= i <= |ws| - READING_RUN :: IsFormAt(r, ws, i)
  }

  predicate IsFormAt(r: Words, ws: Words, i: nat) {
    i + READING_RUN <= |ws| && |r| == READING_RUN
    && r[0] in EdgeForms(ws[i]) && r[1] == ws[i + 1] && r[2] in EdgeForms(ws[i + 2])
  }

  /** Runs of three words, the first and the last in any of their forms. */
  lemma RunFormsAre(r: Words, ws: Words)
    ensures IsRunForm(r, ws) <==> |r| == 3 && exists i :: 0 <= i <= |ws| - 3 && r[0] in EdgeForms(ws[i]) && r[1] == ws[i + 1] && r[2] in EdgeForms(ws[i + 2])
  {
    if i :| 0 <= i <= |ws| - 3 && |r| == 3 && r[0] in EdgeForms(ws[i]) && r[1] == ws[i + 1] && r[2] in EdgeForms(ws[i + 2]) {
      assert IsFormAt(r, ws, i);
    }
    if IsRunForm(r, ws) {
      var i :| 0 <= i <= |ws| - READING_RUN && IsFormAt(r, ws, i);
      assert r[0] in EdgeForms(ws[i]);
    }
  }

  function Three(first: Text, middle: Text, last: Text): Words {
    [first, middle, last]
  }

  function FormsOf(firsts: set<Text>, middle: Text, lasts: set<Text>): set<Words> {
    set first, last {:trigger Three(first, middle, last)} | first in firsts && last in lasts :: Three(first, middle, last)
  }

  /** runs_of */
  method RunsOf(ws: Words) returns (out: set<Words>)
    ensures forall r :: r in out <==> IsRunForm(r, ws)
  {
    out := {};
    var i := 0;
    while i + READING_RUN <= |ws|
      invariant 0 <= i
      invariant forall r :: r in out <==> |r| == READING_RUN && exists j | 0 <= j < i :: IsFormAt(r, ws, j)
    {
      var here := FormsOf(EdgeForms(ws[i]), ws[i + 1], EdgeForms(ws[i + 2]));
      forall r ensures r in here <==> |r| == READING_RUN && IsFormAt(r, ws, i) {
        if |r| == READING_RUN && IsFormAt(r, ws, i) {
          assert r == Three(r[0], ws[i + 1], r[2]);
        }
      }
      out := out + here;
      i := i + 1;
    }
  }

  /** quran_grams of one surah: runs across its ayat. */
  function SurahWords(nfc: Text -> Text, ayat: seq<Text>): Words {
    if ayat == [] then [] else SurahWords(nfc, ayat[..|ayat| - 1]) + YaJoined(WordsOf(nfc, ayat[|ayat| - 1]))
  }

  ghost predicate IsGramOfOne(r: Words, nfc: Text -> Text, surahs: seq<seq<Text>>) {
    exists k | 0 <= k < |surahs| :: IsRunForm(r, SurahWords(nfc, surahs[k]))
  }

  /** quran_grams */
  method QuranGrams(nfc: Text -> Text, surahs: seq<seq<Text>>) returns (grams: set<Words>)
    ensures forall r :: r in grams <==> IsGramOfOne(r, nfc, surahs)
  {
    grams := {};
    for k := 0 to |surahs|
      invariant forall r :: r in grams <==> IsGramOfOne(r, nfc, surahs[..k])
    {
      var ws := WordsOfSurah(nfc, surahs[k]);
      var more := RunsOf(ws);
      OneMoreSurah(nfc, surahs[..k], surahs[k]);
      assert surahs[..k + 1] == surahs[..k] + [surahs[k]];
      grams := grams + more;
    }
    assert surahs[..|surahs|] == surahs;
  }

  lemma OneMoreSurah(nfc: Text -> Text, surahs: seq<seq<Text>>, last: seq<Text>)
    ensures forall r :: IsGramOfOne(r, nfc, surahs + [last]) <==> IsGramOfOne(r, nfc, surahs) || IsRunForm(r, SurahWords(nfc, last))
  {
    var all := surahs + [last];
    forall r ensures IsGramOfOne(r, nfc, all) <==> IsGramOfOne(r, nfc, surahs) || IsRunForm(r, SurahWords(nfc, last)) {
      if IsGramOfOne(r, nfc, surahs) {
        var k :| 0 <= k < |surahs| && IsRunForm(r, SurahWords(nfc, surahs[k]));
        assert all[k] == surahs[k];
      }
      if IsGramOfOne(r, nfc, all) {
        var k :| 0 <= k < |all| && IsRunForm(r, SurahWords(nfc, all[k]));
        assert k < |surahs| ==> all[k] == surahs[k];
      }
      assert all[|surahs|] == last;
    }
  }

  method WordsOfSurah(nfc: Text -> Text, ayat: seq<Text>) returns (ws: Words)
    ensures ws == SurahWords(nfc, ayat)
  {
    ws := [];
    for k := 0 to |ayat|
      invariant ws == SurahWords(nfc, ayat[..k])
    {
      assert ayat[..k + 1][..k] == ayat[..k];
      var more := RunWords(nfc, ayat[k]);
      ws := ws + more;
    }
    assert ayat[..|ayat|] == ayat;
  }

  ghost predicate CarriesRun(nfc: Text -> Text, text: Text, grams: set<Words>) {
    exists r :: r in grams && IsRunForm(r, YaJoined(WordsOf(nfc, text)))
  }

  /** quran_runs */
  method QuranRuns(nfc: Text -> Text, text: Text, grams: set<Words>) returns (found: bool)
    ensures found <==> CarriesRun(nfc, text, grams)
  {
    var ws := RunWords(nfc, text);
    var runs := RunsOf(ws);
    found := runs * grams != {};
    if found {
      var r :| r in runs * grams;
      assert r in grams && IsRunForm(r, ws);
    }
    if r :| r in grams && IsRunForm(r, ws) {
      assert r in runs * grams;
    }
  }

  /** Words around a text never take this flag away either, unless a lone ya stands before one of the two cuts. */
  lemma SurroundingKeepsTheRun(nfc: Text -> Text, grams: set<Words>, before: Text, text: Text, after: Text)
    requires IsNfc(nfc) && CarriesRun(nfc, text, grams)
    requires !EndsInLoneYa(WordsOf(nfc, before))
    requires !EndsInLoneYa(WordsOf(nfc, text)) || WordsOf(nfc, after) == []
    ensures CarriesRun(nfc, Surrounded(before, text, after), grams)
  {
    var a, t, b := WordsOf(nfc, before), WordsOf(nfc, text), WordsOf(nfc, after);
    SurroundedWords(nfc, before, text, after);
    YaJoinedSurrounded(a, t, b);
    var r :| r in grams && IsRunForm(r, YaJoined(t));
    FormInside(YaJoined(a), YaJoined(t), YaJoined(b), r);
  }

  lemma YaJoinedSurrounded(a: Words, t: Words, b: Words)
    requires !EndsInLoneYa(a) && (!EndsInLoneYa(t) || b == [])
    ensures YaJoined(a + t + b) == YaJoined(a) + YaJoined(t) + YaJoined(b)
  {
    YaJoinedSplits(a, t);
    if b == [] {
      assert a + t + b == a + t;
      assert YaJoined(b) == [];
    } else {
      YaEndsAlike(a, t);
      YaJoinedSplits(a + t, b);
    }
  }

  lemma YaEndsAlike(a: Words, t: Words)
    requires !EndsInLoneYa(a) && !EndsInLoneYa(t)
    ensures !EndsInLoneYa(a + t)
  {
    YaJoinedSplits(a, t);
    var x, y := YaJoined(a), YaJoined(t);
    assert y != [] ==> (x + y)[|x + y| - 1] == y[|y| - 1];
    assert y == [] ==> x + y == x;
  }

  lemma FormInside(a: Words, t: Words, b: Words, r: Words)
    requires IsRunForm(r, t)
    ensures IsRunForm(r, a + t + b)
  {
    var i :| 0 <= i <= |t| - READING_RUN && IsFormAt(r, t, i);
    var all := a + t + b;
    assert all[|a| + i] == t[i] && all[|a| + i + 1] == t[i + 1] && all[|a| + i + 2] == t[i + 2];
    assert IsFormAt(r, all, |a| + i);
  }

  // ---------------------------------------------------------------- exactly which surroundings keep the flag

  /** What the two together mean: some run of the text is one of some surah. */
  ghost predicate CarriesQuran(nfc: Text -> Text, text: Text, surahs: seq<seq<Text>>) {
    exists r :: IsGramOfOne(r, nfc, surahs) && IsRunForm(r, YaJoined(WordsOf(nfc, text)))
  }

  /** quran_runs over the answer of quran_grams */
  method ReadsQuran(nfc: Text -> Text, text: Text, surahs: seq<seq<Text>>) returns (found: bool)
    ensures found <==> CarriesQuran(nfc, text, surahs)
  {
    var grams := QuranGrams(nfc, surahs);
    found := QuranRuns(nfc, text, grams);
  }

  ghost predicate Keeps(nfc: Text -> Text, before: Text, text: Text, after: Text, surahs: seq<seq<Text>>) {
    CarriesQuran(nfc, text, surahs) ==> CarriesQuran(nfc, Surrounded(before, text, after), surahs)
  }

  /** No word stands after a text that ends in a lone ya. */
  ghost predicate SecondCutHolds(nfc: Text -> Text, text: Text, after: Text) {
    !EndsInLoneYa(WordsOf(nfc, text)) || WordsOf(nfc, after) == []
  }

  /** Texts that hold the second cut keep their flag, whatever the Quran is, if and only if no lone ya ends what stands before. */
  lemma BeforeKeepsIff(nfc: Text -> Text, before: Text, after: Text)
    requires IsNfc(nfc)
    ensures (forall text, surahs :: SecondCutHolds(nfc, text, after) ==> Keeps(nfc, before, text, after, surahs))
            <==> !EndsInLoneYa(WordsOf(nfc, before))
  {
    if EndsInLoneYa(WordsOf(nfc, before)) {
      var text, surahs := LoneYaTakesTheFlag(nfc, before, after);
      assert !Keeps(nfc, before, text, after, surahs);
    } else {
      forall text, surahs | SecondCutHolds(nfc, text, after) ensures Keeps(nfc, before, text, after, surahs) {
        SurroundedIsKept(nfc, before, text, after, surahs);
      }
    }
  }

  /** Every text keeps its flag if and only if besides nothing stands after it. */
  lemma BothKeepIff(nfc: Text -> Text, before: Text, after: Text)
    requires IsNfc(nfc)
    ensures (forall text, surahs :: Keeps(nfc, before, text, after, surahs))
            <==> !EndsInLoneYa(WordsOf(nfc, before)) && WordsOf(nfc, after) == []
  {
    if EndsInLoneYa(WordsOf(nfc, before)) {
      var text, surahs := LoneYaTakesTheFlag(nfc, before, after);
      assert !Keeps(nfc, before, text, after, surahs);
    } else if WordsOf(nfc, after) != [] {
      var text, surahs := LoneYaLosesItsRun(nfc, before, after);
      assert !Keeps(nfc, before, text, after, surahs);
    } else {
      forall text, surahs ensures Keeps(nfc, before, text, after, surahs) {
        SurroundedIsKept(nfc, before, text, after, surahs);
      }
    }
  }

  lemma SurroundedIsKept(nfc: Text -> Text, before: Text, text: Text, after: Text, surahs: seq<seq<Text>>)
    requires IsNfc(nfc) && !EndsInLoneYa(WordsOf(nfc, before)) && SecondCutHolds(nfc, text, after)
    ensures Keeps(nfc, before, text, after, surahs)
  {
    if r :| IsGramOfOne(r, nfc, surahs) && IsRunForm(r, YaJoined(WordsOf(nfc, text))) {
      assert r in {r};
      SurroundingKeepsTheRun(nfc, {r}, before, text, after);
    }
  }

  // ---------------------------------------------------------------- the surahs that show it

  const QAF: Text := [0x642]
  const LAM: Text := [0x644]
  const NUN: nat := 0x646

  function Nuns(n: nat): Text {
    seq(n, _ => NUN)
  }

  ghost predicate Shorter(ws: Words, n: nat) {
    forall k :: 0 <= k < |ws| ==> |ws[k]| < n
  }

  lemma {:induction false} SomeBound(ws: Words) returns (n: nat)
    ensures n > 2 && Shorter(ws, n)
  {
    n := 3;
    if ws != [] {
      var m := SomeBound(ws[1..]);
      n := if |ws[0]| < m then m else |ws[0]| + 1;
      forall k | 0 <= k < |ws| ensures |ws[k]| < n {
        assert k > 0 ==> ws[k] == ws[1..][k - 1];
      }
    }
  }

  lemma {:induction false} JoinedIsShorter(ws: Words, n: nat)
    requires Shorter(ws, n)
    ensures Shorter(YaJoined(ws), n + 1)
    decreases |ws|
  {
    if ws != [] {
      JoinedIsShorter(ws[..|ws| - 1], n);
    }
  }

  lemma SurahOfOne(nfc: Text -> Text, text: Text, r: Words)
    ensures IsGramOfOne(r, nfc, [[text]]) <==> IsRunForm(r, YaJoined(WordsOf(nfc, text)))
  {
    var ayat := [text];
    assert ayat[..0] == [];
    assert SurahWords(nfc, ayat) == YaJoined(WordsOf(nfc, text));
    assert [[text]][0] == ayat;
  }

  lemma OnlyRun(r: Words, ws: Words)
    requires |ws| == READING_RUN && |ws[0]| < 3 && |ws[2]| < 3
    ensures IsRunForm(r, ws) <==> r == ws
  {
    if IsRunForm(r, ws) {
      assert IsFormAt(r, ws, 0);
    }
    if r == ws {
      assert IsFormAt(r, ws, 0);
    }
  }

  /** A text of three words, and the Quran that is this one ayah: the text's run is its only one. */
  lemma ThreeWordQuran(nfc: Text -> Text, ws: Words) returns (text: Text, surahs: seq<seq<Text>>)
    requires IsNfc(nfc) && AreWords(ws) && OfBones(ws) && |ws| == READING_RUN && YaJoined(ws) == ws
    requires |ws[0]| < 3 && |ws[2]| < 3
    ensures WordsOf(nfc, text) == ws && CarriesQuran(nfc, text, surahs)
    ensures forall r :: IsGramOfOne(r, nfc, surahs) ==> r == ws
  {
    text := Joined(ws);
    surahs := [[text]];
    SkeletonStays(nfc, ws);
    forall r ensures IsGramOfOne(r, nfc, surahs) <==> r == ws {
      SurahOfOne(nfc, text, r);
      OnlyRun(r, ws);
    }
    OnlyRun(ws, ws);
  }

  lemma ElsewhereIsShorter(front: Words, long: Text, back: Words, j: nat)
    requires Shorter(front, |long|) && Shorter(back, |long|) && j < |front| + 1 + |back| && j != |front|
    ensures |(front + [long] + back)[j]| < |long|
  {
  }

  /** The one long word shows where a run must stand. */
  lemma RunStandsThere(r: Words, front: Words, long: Text, back: Words)
    requires |r| == READING_RUN && r[1] == long && Shorter(front, |long|) && Shorter(back, |long|)
    requires IsRunForm(r, front + [long] + back)
    ensures front != [] && back != [] && r[0] in EdgeForms(front[|front| - 1]) && r[2] in EdgeForms(back[0])
  {
    var all := front + [long] + back;
    var i :| 0 <= i <= |all| - READING_RUN && IsFormAt(r, all, i);
    if i + 1 != |front| {
      ElsewhereIsShorter(front, long, back, i + 1);
    }
  }

  lemma OneStays(w: Text)
    ensures YaJoined([w]) == [w]
  {
    assert [w][..0] == [];
  }

  /** Three words, neither of the first two a lone ya, stay as they are. */
  lemma ThreeStay(x: Text, y: Text, z: Text)
    requires x != [YA] && y != [YA]
    ensures YaJoined([x] + [y] + [z]) == [x] + [y] + [z]
  {
    OneStays(x);
    YaOneMore([x], y);
    YaOneMore([x] + [y], z);
  }

  /** A long word in the middle cuts the joined list in two. */
  lemma JoinedAroundLong(a: Words, long: Text, b: Words)
    requires !EndsInLoneYa(a) && |long| > 1
    ensures YaJoined(a + [long] + b) == YaJoined(a) + [long] + YaJoined(b)
  {
    OneStays(long);
    YaJoinedSplits(a, [long]);
    YaJoinedSplits(a + [long], b);
  }

  /** Around a long word, the joined list of three words in their surroundings. */
  lemma CutAtLong(a: Words, x: Text, long: Text, z: Text, b: Words, n: nat) returns (front: Words, back: Words)
    requires Shorter(a, n) && Shorter(b, n) && n > 2 && |long| == n + 1 && |x| < n && |z| < n && x != [YA] && x != []
    ensures front == YaJoined(a + [x]) && back == YaJoined([z] + b)
    ensures Shorter(front, |long|) && Shorter(back, |long|)
    ensures YaJoined(a + ([x] + [long] + [z]) + b) == front + [long] + back
  {
    var first, last := a + [x], [z] + b;
    YaOneMore(a, x);
    JoinedAroundLong(first, long, last);
    assert a + ([x] + [long] + [z]) + b == first + [long] + last;
    JoinedIsShorter(first, n);
    JoinedIsShorter(last, n);
    front, back := YaJoined(first), YaJoined(last);
  }

  /** After a lone ya the first word is no longer a word of its own. */
  lemma YaHidesTheFirst(a: Words, long: Text, b: Words, n: nat, ws: Words)
    requires EndsInLoneYa(a) && Shorter(a, n) && Shorter(b, n) && n > 2 && |long| == n + 1
    requires ws == [QAF] + [long] + [LAM]
    ensures !IsRunForm(ws, YaJoined(a + ws + b))
  {
    var front, back := CutAtLong(a, QAF, long, LAM, b, n);
    YaOneMore(a, QAF);
    if IsRunForm(ws, front + [long] + back) {
      RunStandsThere(ws, front, long, back);
    }
  }

  lemma NextIsJoined(ya: Text, b: Words, back: Words)
    requires ya == [YA] && b != [] && b[0] != [] && back == [ya] + b
    ensures YaJoined(back) != [] && YaJoined(back)[0] == [YA] + b[0]
  {
    OneStays(ya);
    YaTakesTheNext([ya], b);
  }

  /** A lone ya at the end is no longer a word of its own where a word follows. */
  lemma TheNextHidesTheYa(a: Words, ya: Text, long: Text, b: Words, n: nat, ws: Words, last: Words)
    requires !EndsInLoneYa(a) && Shorter(a, n) && Shorter(b, n) && n > 2 && |long| == n + 1 && b != [] && b[0] != []
    requires ya == [YA] && ws == [QAF] + [long] + [ya] && last == [ya] + b
    ensures !IsRunForm(ws, YaJoined(a + ws + b))
  {
    var front, back := CutAtLong(a, QAF, long, ya, b, n);
    assert back == YaJoined(last);
    NextIsJoined(ya, b, last);
    NoLoneYa(back[0], b[0]);
    if IsRunForm(ws, front + [long] + back) {
      RunStandsThere(ws, front, long, back);
    }
  }

  lemma NoLoneYa(w: Text, next: Text)
    requires w == [YA] + next && next != []
    ensures [YA] !in EdgeForms(w)
  {
  }

  lemma NotCarried(nfc: Text -> Text, text: Text, surahs: seq<seq<Text>>, ws: Words, all: Words)
    requires WordsOf(nfc, text) == all && !IsRunForm(ws, YaJoined(all)) && forall r :: IsGramOfOne(r, nfc, surahs) ==> r == ws
    ensures !CarriesQuran(nfc, text, surahs)
  {
  }

  /** A bound on both. */
  lemma SomeBoundOfBoth(a: Words, b: Words) returns (n: nat)
    ensures n > 2 && Shorter(a, n) && Shorter(b, n)
  {
    n := SomeBound(a + b);
    assert forall k :: 0 <= k < |a| ==> a[k] == (a + b)[k];
    assert forall k :: 0 <= k < |b| ==> b[k] == (a + b)[|a| + k];
  }

  lemma ThreeAround(long: Text, last: Text) returns (ws: Words)
    requires |long| > 1 && IsWord(long) && IsWord(last) && |last| < 3 && forall j :: 0 <= j < |last| ==> IsBone(last[j])
    requires forall j :: 0 <= j < |long| ==> IsBone(long[j])
    ensures ws == [QAF] + [long] + [last] && AreWords(ws) && OfBones(ws) && YaJoined(ws) == ws
    ensures |ws| == READING_RUN && |ws[0]| < 3 && |ws[2]| < 3 && (EndsInLoneYa(ws) <==> last == [YA])
  {
    ThreeStay(QAF, long, last);
    ws := [QAF] + [long] + [last];
  }

  lemma ShownBy(nfc: Text -> Text, before: Text, after: Text, ws: Words) returns (text: Text, surahs: seq<seq<Text>>)
    requires IsNfc(nfc) && AreWords(ws) && OfBones(ws) && |ws| == READING_RUN && YaJoined(ws) == ws
    requires |ws[0]| < 3 && |ws[2]| < 3
    requires !IsRunForm(ws, YaJoined(WordsOf(nfc, before) + ws + WordsOf(nfc, after)))
    ensures WordsOf(nfc, text) == ws
    ensures CarriesQuran(nfc, text, surahs) && !CarriesQuran(nfc, Surrounded(before, text, after), surahs)
  {
    text, surahs := ThreeWordQuran(nfc, ws);
    SurroundedWords(nfc, before, text, after);
    NotCarried(nfc, Surrounded(before, text, after), surahs, ws, WordsOf(nfc, before) + ws + WordsOf(nfc, after));
  }

  lemma LoneYaTakesTheFlag(nfc: Text -> Text, before: Text, after: Text) returns (text: Text, surahs: seq<seq<Text>>)
    requires IsNfc(nfc) && EndsInLoneYa(WordsOf(nfc, before))
    ensures SecondCutHolds(nfc, text, after)
    ensures CarriesQuran(nfc, text, surahs) && !CarriesQuran(nfc, Surrounded(before, text, after), surahs)
  {
    var a, b := WordsOf(nfc, before), WordsOf(nfc, after);
    var ws := HiddenWords(a, b);
    text, surahs := ShownBy(nfc, before, after, ws);
  }

  /** Three words whose run is gone after the lone ya. */
  lemma HiddenWords(a: Words, b: Words) returns (ws: Words)
    requires EndsInLoneYa(a)
    ensures AreWords(ws) && OfBones(ws) && |ws| == READING_RUN && YaJoined(ws) == ws && |ws[0]| < 3 && |ws[2]| < 3 && !EndsInLoneYa(ws)
    ensures !IsRunForm(ws, YaJoined(a + ws + b))
  {
    var n := SomeBoundOfBoth(a, b);
    var long := Nuns(n + 1);
    ws := ThreeAround(long, LAM);
    YaHidesTheFirst(a, long, b, n, ws);
  }

  lemma LoneYaLosesItsRun(nfc: Text -> Text, before: Text, after: Text) returns (text: Text, surahs: seq<seq<Text>>)
    requires IsNfc(nfc) && !EndsInLoneYa(WordsOf(nfc, before)) && WordsOf(nfc, after) != []
    ensures CarriesQuran(nfc, text, surahs) && !CarriesQuran(nfc, Surrounded(before, text, after), surahs)
  {
    var a, b := WordsOf(nfc, before), WordsOf(nfc, after);
    var n := SomeBoundOfBoth(a, b);
    var long := Nuns(n + 1);
    var ws := ThreeAround(long, [YA]);
    WordsOfAreWords(nfc, after);
    TheNextHidesTheYa(a, [YA], long, b, n, ws, [[YA]] + b);
    text, surahs := ShownBy(nfc, before, after, ws);
  }

  lemma WordsOfAreWords(nfc: Text -> Text, text: Text)
    ensures AreWords(WordsOf(nfc, text))
  {
    SplitMakesWords(Skeleton(nfc, text));
  }

  /** The shortest such `before` is the ya itself. */
  lemma TheYaAlone(nfc: Text -> Text)
    requires IsNfc(nfc)
    ensures EndsInLoneYa(WordsOf(nfc, [YA]))
  {
    var ya: Words := [[YA]];
    SkeletonStays(nfc, ya);
    assert Joined(ya) == [YA];
    OneStays([YA]);
  }
}
