/**
  * The letter skeleton two spellings of one text share, and the words it is compared by.
  * Unicode's NFC is a function `nfc` of which only two things are assumed.
  */
module Rasm {

  type Text = seq<nat>
  type Words = seq<Text>

  const SPACE: nat := 0x20
  const WAW: nat := 0x648
  const DAGGER: nat := 0x670
  const YA: nat := 0x64A

  predicate IsMark(c: nat) {
    0x64B <= c < 0x660 || c == DAGGER || c == 0x640 || 0x6D6 <= c < 0x6EE
  }

  predicate IsAlef(c: nat) {
    c in {0x627, 0x623, 0x625, 0x622, 0x671, 0x621, 0x624, 0x626}
  }

  function Unified(c: nat): nat {
    if c == 0x649 then YA else if c == 0x629 then 0x647 else c
  }

  /** A letter a skeleton can hold. */
  predicate IsBone(c: nat) {
    0x621 <= c <= 0x64A && !IsMark(c) && !IsAlef(c) && Unified(c) == c
  }

  /** What the fold assumes of NFC: skeletons are as they are, and nothing composes across a space. */
  ghost predicate IsNfc(nfc: Text -> Text) {
    && (forall t: Text :: (forall k :: 0 <= k < |t| ==> IsBone(t[k]) || t[k] == SPACE) ==> nfc(t) == t)
    && (forall a: Text, b: Text {:trigger nfc(a + [SPACE] + b)} :: nfc(a + [SPACE] + b) == nfc(a) + [SPACE] + nfc(b))
  }

  // ---------------------------------------------------------------- rasm

  /** The Uthmani waw that stands for an alef goes. */
  function WithoutWawDagger(t: Text): Text
    decreases |t|
  {
    if t == [] then []
    else if |t| > 1 && t[0] == WAW && t[1] == DAGGER then WithoutWawDagger(t[2..])
    else [t[0]] + WithoutWawDagger(t[1..])
  }

  /** A character's place in the skeleton: nothing, a letter, or a space. */
  function Bone(c: nat): Text {
    if IsMark(c) || IsAlef(c) then [] else if 0x621 <= Unified(c) <= 0x64A then [Unified(c)] else [SPACE]
  }

  /** A waw and the dagger alef after it go together; nothing else goes here. */
  lemma WawDaggerGoes(c: nat, t: Text)
    ensures WithoutWawDagger([0x648, 0x670] + t) == WithoutWawDagger(t)
    ensures c != 0x648 || t == [] || t[0] != 0x670 ==> WithoutWawDagger([c] + t) == [c] + WithoutWawDagger(t)
    ensures WithoutWawDagger([]) == []
  {
    assert ([0x648, 0x670] + t)[2..] == t && ([c] + t)[1..] == t;
  }

  /**
    * The table: the short vowels and signs, the tatweel and the Quran's own marks are
    * nothing, as is every alef and hamza; a final ya is a ya, a ta marbuta a ha; every other
    * Arabic letter is itself, and whatever else there is parts words.
    */
  lemma FoldTable(c: nat)
    ensures c == 0x640 || c == 0x670 || 0x64B <= c <= 0x65F || 0x6D6 <= c <= 0x6ED ==> Bone(c) == []
    ensures 0x621 <= c <= 0x627 && c != 0x628 ==> Bone(c) == []
    ensures c == 0x671 ==> Bone(c) == []
    ensures c == 0x649 ==> Bone(c) == [0x64A]
    ensures c == 0x629 ==> Bone(c) == [0x647]
    ensures c == 0x628 || 0x62A <= c <= 0x63F || 0x641 <= c <= 0x648 || c == 0x64A ==> Bone(c) == [c]
    ensures c < 0x621 || (0x660 <= c < 0x6D6 && c != 0x670 && c != 0x671) || c > 0x6ED ==> Bone(c) == [0x20]
  {
  }

  function Bones(t: Text): Text {
    if t == [] then [] else Bones(t[..|t| - 1]) + Bone(t[|t| - 1])
  }

  /** str.split on spaces: the words, none empty. */
  function Split(t: Text): Words {
    if t == [] then []
    else
      Extended(Split(t[..|t| - 1]), t[|t| - 1], |t| == 1 || t[|t| - 2] == SPACE)
  }

  /** One more character: of a new word, or of the last one. */
  function Extended(front: Words, c: nat, starts: bool): Words {
    if c == SPACE then front
    else if starts || front == [] then front + [[c]]
    else front[..|front| - 1] + [front[|front| - 1] + [c]]
  }

  function Joined(ws: Words): Text {
    if ws == [] then [] else if |ws| == 1 then ws[0] else Joined(ws[..|ws| - 1]) + [SPACE] + ws[|ws| - 1]
  }

  function Skeleton(nfc: Text -> Text, text: Text): Text {
    Joined(Split(Bones(WithoutWawDagger(nfc(text)))))
  }

  /** rasm */
  method Fold(nfc: Text -> Text, text: Text) returns (folded: Text)
    ensures folded == Skeleton(nfc, text)
  {
    var t := WithoutWawDagger(nfc(text));
    var out: Text := [];
    for k := 0 to |t|
      invariant out == Bones(t[..k])
    {
      var upTo := t[..k + 1];
      assert upTo[..k] == t[..k] && upTo[k] == t[k];
      if !IsMark(t[k]) && !IsAlef(t[k]) {
        var o := Unified(t[k]);
        out := out + [if 0x621 <= o <= 0x64A then o else SPACE];
      }
    }
    assert t[..|t|] == t;
    folded := Joined(Split(out));
  }

  /** rasm(text).split() */
  function WordsOf(nfc: Text -> Text, text: Text): Words {
    Split(Skeleton(nfc, text))
  }

  // ---------------------------------------------------------------- words

  /** A lone ya takes the next word to itself. */
  function YaJoined(ws: Words): Words {
    if ws == [] then []
    else
      var front := YaJoined(ws[..|ws| - 1]);
      if front != [] && front[|front| - 1] == [YA] then front[..|front| - 1] + [[YA] + ws[|ws| - 1]] else front + [ws[|ws| - 1]]
  }

  /** words */
  method RunWords(nfc: Text -> Text, text: Text) returns (out: Words)
    ensures out == YaJoined(WordsOf(nfc, text))
  {
    var folded := Fold(nfc, text);
    var ws := Split(folded);
    out := [];
    for k := 0 to |ws|
      invariant out == YaJoined(ws[..k])
    {
      var upTo := ws[..k + 1];
      assert upTo[..k] == ws[..k] && upTo[k] == ws[k];
      if out != [] && out[|out| - 1] == [YA] {
        out := out[..|out| - 1] + [[YA] + ws[k]];
      } else {
        out := out + [ws[k]];
      }
    }
    assert ws[..|ws|] == ws;
  }

  const PREFIXES: set<nat> := {0x648, 0x641, 0x628, 0x644}

  /** edge_forms */
  function EdgeForms(w: Text): set<Text> {
    if |w| >= 3 && w[0] in PREFIXES then {w, w[1..]} else {w}
  }

  /** A word of three letters or more may shed a waw, fa, ba or lam from its front. */
  lemma EdgeFormsAre(w: Text, e: Text)
    ensures e in EdgeForms(w) <==> e == w || (|w| >= 3 && (w[0] == 0x648 || w[0] == 0x641 || w[0] == 0x628 || w[0] == 0x644) && e == w[1..])
  {
  }

  // ---------------------------------------------------------------- splitting and joining

  ghost predicate IsWord(w: Text) {
    w != [] && SPACE !in w
  }

  ghost predicate AreWords(ws: Words) {
    forall k :: 0 <= k < |ws| ==> IsWord(ws[k])
  }

  ghost predicate OfBones(ws: Words) {
    forall k, j :: 0 <= k < |ws| && 0 <= j < |ws[k]| ==> IsBone(ws[k][j])
  }

  lemma {:induction false} SplitMakesWords(t: Text)
    ensures AreWords(Split(t))
    ensures t != [] && t[|t| - 1] != SPACE ==> Split(t) != []
    decreases |t|
  {
    if t != [] {
      SplitMakesWords(t[..|t| - 1]);
    }
  }

  /** Splitting a word after a space, or at the start, adds that word. */
  lemma {:induction false} SplitWord(t: Text, w: Text)
    requires IsWord(w) && (t == [] || t[|t| - 1] == SPACE)
    ensures Split(t + w) == Split(t) + [w]
    decreases |w|
  {
    var last := |w| - 1;
    assert t + w == (t + w[..last]) + [w[last]];
    SplitStep(t + w[..last], w[last]);
    assert w == w[..last] + [w[last]];
    if last == 0 {
      assert t + w[..0] == t;
    } else {
      SplitWord(t, w[..last]);
      assert (t + w[..last])[|t + w[..last]| - 1] == w[last - 1];
      LastGrows(Split(t), [w[..last]], w[last]);
    }
  }

  lemma SplitStep(t: Text, c: nat)
    ensures Split(t + [c]) == Extended(Split(t), c, t == [] || t[|t| - 1] == SPACE)
  {
    assert (t + [c])[..|t|] == t;
  }

  lemma SplitSpace(t: Text)
    ensures Split(t + [SPACE]) == Split(t)
  {
    assert (t + [SPACE])[..|t|] == t;
  }

  lemma {:induction false} SplitAcrossSpace(a: Text, b: Text)
    ensures Split(a + [SPACE] + b) == Split(a) + Split(b)
    decreases |b|
  {
    if b == [] {
      assert a + [SPACE] + b == a + [SPACE];
      SplitSpace(a);
    } else {
      var front, c := b[..|b| - 1], b[|b| - 1];
      SplitAcrossSpace(a, front);
      SplitMakesWords(front);
      OneMoreChar(a, front, c);
      FrontAndLast(b);
    }
  }

  lemma FrontAndLast(b: Text)
    requires b != []
    ensures b == b[..|b| - 1] + [b[|b| - 1]]
  {
  }

  lemma OneMoreChar(a: Text, b: Text, c: nat)
    requires Split(a + [SPACE] + b) == Split(a) + Split(b)
    requires b != [] && b[|b| - 1] != SPACE ==> Split(b) != []
    ensures Split(a + [SPACE] + (b + [c])) == Split(a) + Split(b + [c])
  {
    var t := a + [SPACE] + b;
    assert t + [c] == a + [SPACE] + (b + [c]);
    var starts := b == [] || b[|b| - 1] == SPACE;
    assert starts <==> t[|t| - 1] == SPACE;
    SplitStep(t, c);
    SplitStep(b, c);
    ExtendedAfter(Split(a), Split(b), c, starts);
  }

  lemma ExtendedAfter(x: Words, y: Words, c: nat, starts: bool)
    requires starts || y != []
    ensures Extended(x + y, c, starts) == x + Extended(y, c, starts)
  {
    if c != SPACE && !starts {
      LastGrows(x, y, c);
    }
  }

  lemma LastGrows(x: Words, y: Words, c: nat)
    requires y != []
    ensures var z := x + y; z[..|z| - 1] + [z[|z| - 1] + [c]] == x + (y[..|y| - 1] + [y[|y| - 1] + [c]])
  {
  }

  lemma {:induction false} SplitJoined(ws: Words)
    requires AreWords(ws)
    ensures Split(Joined(ws)) == ws
    decreases |ws|
  {
    if |ws| == 1 {
      SplitWord([], ws[0]);
      assert [] + ws[0] == ws[0];
    } else if |ws| > 1 {
      var front := ws[..|ws| - 1];
      SplitJoined(front);
      SplitSpace(Joined(front));
      SplitWord(Joined(front) + [SPACE], ws[|ws| - 1]);
      assert ws == front + [ws[|ws| - 1]];
    }
  }

  // ---------------------------------------------------------------- the fold over a space

  lemma {:induction false} WawDaggerAcrossSpace(a: Text, b: Text)
    ensures WithoutWawDagger(a + [SPACE] + b) == WithoutWawDagger(a) + [SPACE] + WithoutWawDagger(b)
    decreases |a|
  {
    var t := a + [SPACE] + b;
    if a == [] {
      assert t[1..] == b;
    } else {
      var n := if |a| > 1 && a[0] == WAW && a[1] == DAGGER then 2 else 1;
      assert t[n..] == a[n..] + [SPACE] + b;
      assert |a| > 1 ==> t[1] == a[1];
      WawDaggerAcrossSpace(a[n..], b);
    }
  }

  lemma {:induction false} BonesAppend(a: Text, b: Text)
    ensures Bones(a + b) == Bones(a) + Bones(b)
    decreases |b|
  {
    if b == [] {
      assert a + b == a;
    } else {
      assert (a + b)[..|a + b| - 1] == a + b[..|b| - 1];
      BonesAppend(a, b[..|b| - 1]);
    }
  }

  lemma BonesAcrossSpace(a: Text, b: Text)
    ensures Bones(a + [SPACE] + b) == Bones(a) + [SPACE] + Bones(b)
  {
    BonesAppend(a + [SPACE], b);
    BonesAppend(a, [SPACE]);
    assert [SPACE][..0] == [];
    assert Bones([SPACE]) == Bones([]) + Bone(SPACE);
  }

  lemma {:induction false} BonesAreBones(t: Text)
    ensures forall k :: 0 <= k < |Bones(t)| ==> IsBone(Bones(t)[k]) || Bones(t)[k] == SPACE
  {
    if t != [] {
      BonesAreBones(t[..|t| - 1]);
    }
  }

  /** Compositional: the words of two texts with a space between are the words of each. */
  lemma WordsAcrossSpace(nfc: Text -> Text, a: Text, b: Text)
    requires IsNfc(nfc)
    ensures WordsOf(nfc, a + [SPACE] + b) == WordsOf(nfc, a) + WordsOf(nfc, b)
  {
    WordsAreSplit(nfc, a);
    WordsAreSplit(nfc, b);
    WordsAreSplit(nfc, a + [SPACE] + b);
    var x, y := nfc(a), nfc(b);
    assert nfc(a + [SPACE] + b) == x + [SPACE] + y;
    WawDaggerAcrossSpace(x, y);
    BonesAcrossSpace(WithoutWawDagger(x), WithoutWawDagger(y));
    SplitAcrossSpace(Bones(WithoutWawDagger(x)), Bones(WithoutWawDagger(y)));
  }

  lemma WordsAreSplit(nfc: Text -> Text, t: Text)
    ensures WordsOf(nfc, t) == Split(Bones(WithoutWawDagger(nfc(t))))
  {
    var s := Split(Bones(WithoutWawDagger(nfc(t))));
    SplitMakesWords(Bones(WithoutWawDagger(nfc(t))));
    SplitJoined(s);
  }

  lemma {:induction false} SplitOfBones(t: Text)
    requires forall k :: 0 <= k < |t| ==> IsBone(t[k]) || t[k] == SPACE
    ensures OfBones(Split(t))
    decreases |t|
  {
    if t != [] {
      SplitOfBones(t[..|t| - 1]);
    }
  }

  lemma {:induction false} JoinedOfBones(ws: Words)
    requires OfBones(ws)
    ensures forall k :: 0 <= k < |Joined(ws)| ==> IsBone(Joined(ws)[k]) || Joined(ws)[k] == SPACE
    decreases |ws|
  {
    if |ws| > 1 {
      JoinedOfBones(ws[..|ws| - 1]);
    }
  }

  lemma {:induction false} BonesStay(t: Text)
    requires forall k :: 0 <= k < |t| ==> IsBone(t[k]) || t[k] == SPACE
    ensures Bones(t) == t && WithoutWawDagger(t) == t
    decreases |t|
  {
    if t != [] {
      assert t == t[..|t| - 1] + [t[|t| - 1]];
      BonesStay(t[..|t| - 1]);
      WithoutStays(t);
    }
  }

  lemma {:induction false} WithoutStays(t: Text)
    requires DAGGER !in t
    ensures WithoutWawDagger(t) == t
    decreases |t|
  {
    if t != [] {
      WithoutStays(t[1..]);
      assert t == [t[0]] + t[1..];
    }
  }

  /** A text of skeleton words is its own skeleton. */
  lemma SkeletonStays(nfc: Text -> Text, ws: Words)
    requires IsNfc(nfc) && AreWords(ws) && OfBones(ws)
    ensures Skeleton(nfc, Joined(ws)) == Joined(ws) && WordsOf(nfc, Joined(ws)) == ws
  {
    JoinedOfBones(ws);
    BonesStay(Joined(ws));
    SplitJoined(ws);
  }

  /** Idempotent. */
  lemma SkeletonTwice(nfc: Text -> Text, text: Text)
    requires IsNfc(nfc)
    ensures Skeleton(nfc, Skeleton(nfc, text)) == Skeleton(nfc, text)
  {
    var t := Bones(WithoutWawDagger(nfc(text)));
    BonesAreBones(WithoutWawDagger(nfc(text)));
    SplitOfBones(t);
    SplitMakesWords(t);
    SkeletonStays(nfc, Split(t));
  }

  // ---------------------------------------------------------------- a lone ya joins forward

  ghost predicate EndsInLoneYa(ws: Words) {
    YaJoined(ws) != [] && YaJoined(ws)[|YaJoined(ws)| - 1] == [YA]
  }

  /** Joining a list in two halves is joining it whole unless a lone ya stands before the cut. */
  lemma {:induction false} YaJoinedSplits(a: Words, b: Words)
    requires !EndsInLoneYa(a)
    ensures YaJoined(a + b) == YaJoined(a) + YaJoined(b)
    decreases |b|
  {
    if b == [] {
      assert a + b == a;
    } else {
      var front, last := b[..|b| - 1], b[|b| - 1];
      assert a + b == (a + front) + [last] && b == front + [last];
      YaJoinedSplits(a, front);
      YaOneMore(a + front, last);
      YaOneMore(front, last);
      YaTakenIn(YaJoined(a), YaJoined(front), last);
    }
  }

  /** The joined words with one more word: taken by a lone ya at their end, or after them. */
  function YaTaken(joined: Words, w: Text): Words {
    if joined != [] && joined[|joined| - 1] == [YA] then joined[..|joined| - 1] + [[YA] + w] else joined + [w]
  }

  lemma YaOneMore(front: Words, w: Text)
    ensures YaJoined(front + [w]) == YaTaken(YaJoined(front), w)
  {
    assert (front + [w])[..|front|] == front;
  }

  lemma YaTakenIn(x: Words, y: Words, w: Text)
    requires x == [] || x[|x| - 1] != [YA]
    ensures YaTaken(x + y, w) == x + YaTaken(y, w)
  {
    if y == [] {
      assert x + y == x;
    } else {
      assert (x + y)[|x + y| - 1] == y[|y| - 1] && (x + y)[..|x + y| - 1] == x + y[..|y| - 1];
    }
  }

  /** After a lone ya the next word is joined to it, and stays so whatever follows. */
  lemma {:induction false} YaTakesTheNext(a: Words, b: Words)
    requires EndsInLoneYa(a) && b != [] && b[0] != []
    ensures |YaJoined(a + b)| >= |YaJoined(a)| && YaJoined(a + b)[|YaJoined(a)| - 1] == [YA] + b[0]
    decreases |b|
  {
    var last := |b| - 1;
    assert (a + b)[..|a + b| - 1] == a + b[..last];
    if last == 0 {
      assert a + b[..0] == a;
    } else {
      YaTakesTheNext(a, b[..last]);
    }
  }

  /** So the joined words of two halves are those of the whole exactly when no lone ya stands at the cut. */
  lemma YaJoinedSplitsIff(a: Words, b: Words)
    requires AreWords(b)
    ensures YaJoined(a + b) == YaJoined(a) + YaJoined(b) <==> !EndsInLoneYa(a) || b == []
  {
    if b == [] {
      assert a + b == a;
    } else if EndsInLoneYa(a) {
      YaTakesTheNext(a, b);
      assert (YaJoined(a) + YaJoined(b))[|YaJoined(a)| - 1] == [YA];
    } else {
      YaJoinedSplits(a, b);
    }
  }
}
