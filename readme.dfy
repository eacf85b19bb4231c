/**
 * Writing the statistics card into the README. The card replaces the text
 * from the first begin marker to the last end marker after it (the span a
 * greedy `BEGIN[\s\S]*END` pattern matches), or is appended after a blank
 * line when the README has no such span, or becomes the whole file when
 * there is no README yet.
 */
module Readme {
  import opened Wrappers

  const BEGIN: string := "<!-- BEGIN_GITHUB_STATS -->"
  const END: string := "<!-- END_GITHUB_STATS -->"

  /** `w` occurs in `s` starting at `i`. */
  predicate OccursAt(s: string, w: string, i: int) {
    0 <= i && i + |w| <= |s| && s[i..i + |w|] == w
  }

  /** `w` occurs nowhere in `s`. */
  ghost predicate Absent(s: string, w: string) {
    forall j :: !OccursAt(s, w, j)
  }

  /** The first occurrence of `w` in `s` at or after `from`. */
  function FirstAt(s: string, w: string, from: nat): (r: Option<nat>)
    ensures r.Some? ==> from <= r.value && OccursAt(s, w, r.value)
    ensures r.Some? ==> forall j :: from <= j < r.value ==> !OccursAt(s, w, j)
    ensures r.None? ==> forall j :: from <= j ==> !OccursAt(s, w, j)
    decreases |s| - from
  {
    if from + |w| > |s| then None
    else if s[from..from + |w|] == w then Some(from)
    else FirstAt(s, w, from + 1)
  }

  /** The last occurrence of `w` in `s` that starts at or after `from` and before `below`. */
  function LastBelow(s: string, w: string, from: nat, below: nat): (r: Option<nat>)
    ensures r.Some? ==> from <= r.value < below && OccursAt(s, w, r.value)
    ensures r.Some? ==> forall j :: r.value < j < below ==> !OccursAt(s, w, j)
    ensures r.None? ==> forall j :: from <= j < below ==> !OccursAt(s, w, j)
    decreases below
  {
    if below <= from then None
    else if OccursAt(s, w, below - 1) then Some(below - 1)
    else LastBelow(s, w, from, below - 1)
  }

  /** The last occurrence of `w` in `s` that starts at or after `from`. */
  function LastAt(s: string, w: string, from: nat): (r: Option<nat>)
    ensures r.Some? ==> from <= r.value && OccursAt(s, w, r.value)
    ensures r.Some? ==> forall j :: r.value < j ==> !OccursAt(s, w, j)
    ensures r.None? ==> forall j :: from <= j ==> !OccursAt(s, w, j)
  {
    LastBelow(s, w, from, |s| + 1)
  }

  /**
   * The span `[start, stop)` of the first marker block: it starts at the
   * first begin marker and stops after the last end marker that begins
   * after that begin marker ends.
   */
  function MarkerSpan(s: string): (r: Option<(nat, nat)>)
    ensures r.Some? ==> var (start, stop) := r.value;
      && OccursAt(s, BEGIN, start) && (forall j :: 0 <= j < start ==> !OccursAt(s, BEGIN, j))
      && start + |BEGIN| + |END| <= stop <= |s| && OccursAt(s, END, stop - |END|)
      && (forall j :: stop - |END| < j ==> !OccursAt(s, END, j))
  {
    match FirstAt(s, BEGIN, 0)
    case None => None
    case Some(start) =>
      match LastAt(s, END, start + |BEGIN|)
      case None => None
      case Some(q) => Some((start, q + |END|))
  }

  /** A marker block exists exactly when some begin marker has an end marker after it. */
  lemma MarkerSpanExists(s: string)
    ensures MarkerSpan(s).Some? <==>
              exists p, q :: OccursAt(s, BEGIN, p) && OccursAt(s, END, q) && p + |BEGIN| <= q
  {
    if MarkerSpan(s).Some? {
      var (start, stop) := MarkerSpan(s).value;
      assert OccursAt(s, BEGIN, start) && OccursAt(s, END, stop - |END|);
    }
    if p, q :| OccursAt(s, BEGIN, p) && OccursAt(s, END, q) && p + |BEGIN| <= q {
      var first := FirstAt(s, BEGIN, 0);
      assert first.Some?;
      assert first.value <= p;
      assert LastAt(s, END, first.value + |BEGIN|).Some?;
    }
  }

  /** `content.replace(regex, card)`: the marker block replaced by the card, or nothing when there is none. */
  function Splice(content: string, card: string): (r: Option<string>)
    ensures r.Some? <==> MarkerSpan(content).Some?
    ensures r.Some? ==> var (start, stop) := MarkerSpan(content).value;
      && |r.value| == start + |card| + (|content| - stop)
      && r.value[..start] == content[..start]
      && r.value[start..start + |card|] == card
      && r.value[start + |card|..] == content[stop..]
  {
    match MarkerSpan(content)
    case None => None
    case Some((start, stop)) => Some(content[..start] + card + content[stop..])
  }

  /** The README after the update and the value `updateReadme` returns. */
  datatype ReadmeUpdate = ReadmeUpdate(content: string, changed: bool)

  /**
   * `existing` is the README's text, or `None` when the file does not exist.
   * The file is written exactly when `changed` holds, so `content` is the
   * README afterwards in every case.
   */
  function UpdateReadme(existing: Option<string>, card: string): (r: ReadmeUpdate)
    ensures existing.None? ==> r == ReadmeUpdate(card, true)
    ensures existing.Some? ==> (r.changed <==> r.content != existing.value)
    ensures existing.Some? && MarkerSpan(existing.value).None? ==>
              r == ReadmeUpdate(existing.value + "\n\n" + card, true)
    ensures existing.Some? && MarkerSpan(existing.value).Some? ==>
              var (start, stop) := MarkerSpan(existing.value).value;
              r.content == existing.value[..start] + card + existing.value[stop..]
  {
    match existing
    case None => ReadmeUpdate(card, true)
    case Some(text) =>
      match Splice(text, card)
      case Some(next) => ReadmeUpdate(next, next != text)
      case None =>
        var next := text + "\n\n" + card;
        assert |next| > |text|;
        ReadmeUpdate(next, true)
  }

  // ---------------------------------------------------------------------
  // Running the update twice

  /** The card the generator writes: a begin marker, any body, an end marker. */
  predicate WellFormedCard(card: string) {
    |card| >= |BEGIN| + |END| && card[..|BEGIN|] == BEGIN && card[|card| - |END|..] == END
  }

  /** '<' opens the begin marker and occurs nowhere else in it; there is no line break in it. */
  lemma BeginShape()
    ensures BEGIN[0] == '<'
    ensures forall k :: 0 < k < |BEGIN| ==> BEGIN[k] != '<'
    ensures forall k :: 0 <= k < |BEGIN| ==> BEGIN[k] != '\n'
  {
  }

  /** '>' closes the end marker and occurs nowhere else in it. */
  lemma EndShape()
    ensures END[|END| - 1] == '>'
    ensures forall k :: 0 <= k < |END| - 1 ==> END[k] != '>'
  {
  }

  /**
   * In `pre + card + post`, with no begin marker inside `pre` and a card
   * that opens with one, the first begin marker is the card's.
   */
  lemma {:induction false} FirstBeginIsCard(pre: string, card: string, post: string)
    requires forall j :: 0 <= j && j + |BEGIN| <= |pre| ==> !OccursAt(pre, BEGIN, j)
    requires WellFormedCard(card)
    ensures var t := pre + card + post;
      OccursAt(t, BEGIN, |pre|) && forall j :: 0 <= j < |pre| ==> !OccursAt(t, BEGIN, j)
  {
    var t := pre + card + post;
    assert t[|pre|..|pre| + |BEGIN|] == card[..|BEGIN|];
    forall j | 0 <= j < |pre| ensures !OccursAt(t, BEGIN, j) {
      if j + |BEGIN| <= |pre| {
        assert t[j..j + |BEGIN|] == pre[j..j + |BEGIN|];
        assert !OccursAt(pre, BEGIN, j);
      } else if j + |BEGIN| <= |t| {
        BeginShape();
        var k := |pre| - j;
        assert card[0] == card[..|BEGIN|][0] == '<';
        assert t[j..j + |BEGIN|][k] == t[|pre|] == card[0];
        assert BEGIN[k] != '<';
      }
    }
  }

  /**
   * In `pre + card + post`, with no end marker inside `post` and a card
   * that closes with one, the last end marker is the card's.
   */
  lemma {:induction false} LastEndIsCard(pre: string, card: string, post: string)
    requires forall j :: 0 <= j && j + |END| <= |post| ==> !OccursAt(post, END, j)
    requires WellFormedCard(card)
    ensures var t := pre + card + post; var q := |pre| + |card| - |END|;
      OccursAt(t, END, q) && forall j :: q < j ==> !OccursAt(t, END, j)
  {
    var t := pre + card + post;
    var c := |pre| + |card|;
    var q := c - |END|;
    assert t[q..c] == card[|card| - |END|..];
    forall j | q < j ensures !OccursAt(t, END, j) {
      if c <= j && j + |END| <= |t| {
        assert t[j..j + |END|] == post[j - c..j - c + |END|];
        assert !OccursAt(post, END, j - c);
      } else if j + |END| <= |t| {
        EndShape();
        var k := c - 1 - j;
        assert card[|card| - 1] == card[|card| - |END|..][|END| - 1] == '>';
        assert t[j..j + |END|][k] == t[c - 1] == card[|card| - 1];
        assert END[k] != '>';
      }
    }
  }

  /** The first occurrence is the one with none before it. */
  lemma FirstAtIs(s: string, w: string, p: nat)
    requires OccursAt(s, w, p) && forall j :: 0 <= j < p ==> !OccursAt(s, w, j)
    ensures FirstAt(s, w, 0) == Some(p)
  {
  }

  /** The last occurrence is the one with none after it. */
  lemma LastAtIs(s: string, w: string, from: nat, q: nat)
    requires from <= q && OccursAt(s, w, q) && forall j :: q < j ==> !OccursAt(s, w, j)
    ensures LastAt(s, w, from) == Some(q)
  {
  }

  /** A README that already shows `card` between its markers, with such text around it, is left as it is. */
  lemma {:induction false} SpliceFixesCard(pre: string, card: string, post: string)
    requires forall j :: 0 <= j && j + |BEGIN| <= |pre| ==> !OccursAt(pre, BEGIN, j)
    requires forall j :: 0 <= j && j + |END| <= |post| ==> !OccursAt(post, END, j)
    requires WellFormedCard(card)
    ensures UpdateReadme(Some(pre + card + post), card) == ReadmeUpdate(pre + card + post, false)
  {
    var t := pre + card + post;
    FirstBeginIsCard(pre, card, post);
    FirstAtIs(t, BEGIN, |pre|);
    LastEndIsCard(pre, card, post);
    LastAtIs(t, END, |pre| + |BEGIN|, |pre| + |card| - |END|);
    assert MarkerSpan(t) == Some((|pre|, |pre| + |card|));
    assert t[..|pre|] == pre && t[|pre| + |card|..] == post;
    assert Splice(t, card) == Some(t);
  }

  /** Appending the card after a README without a begin marker gives a README the next run leaves alone. */
  lemma {:induction false} AppendedCardStays(text: string, card: string)
    requires WellFormedCard(card) && Absent(text, BEGIN)
    ensures UpdateReadme(Some(text + "\n\n" + card), card) == ReadmeUpdate(text + "\n\n" + card, false)
  {
    var pre := text + "\n\n";
    forall j | 0 <= j && j + |BEGIN| <= |pre| ensures !OccursAt(pre, BEGIN, j) {
      if j + |BEGIN| <= |text| {
        assert pre[j..j + |BEGIN|] == text[j..j + |BEGIN|];
        assert !OccursAt(text, BEGIN, j);
      } else {
        BeginShape();
        var k := |text| - j;
        assert pre[j..j + |BEGIN|][k] == pre[|text|] == '\n';
      }
    }
    SpliceFixesCard(pre, card, []);
    assert pre + card + [] == text + "\n\n" + card;
  }

  /** Splicing the card into a marker block gives a README the next run leaves alone. */
  lemma {:induction false} SplicedCardStays(text: string, card: string)
    requires WellFormedCard(card) && MarkerSpan(text).Some?
    ensures var (start, stop) := MarkerSpan(text).value;
      var next := text[..start] + card + text[stop..];
      UpdateReadme(Some(next), card) == ReadmeUpdate(next, false)
  {
    var (start, stop) := MarkerSpan(text).value;
    var pre := text[..start];
    var post := text[stop..];
    forall j | 0 <= j && j + |BEGIN| <= |pre| ensures !OccursAt(pre, BEGIN, j) {
      assert text[j..j + |BEGIN|] == pre[j..j + |BEGIN|];
      assert !OccursAt(text, BEGIN, j);
    }
    forall j | 0 <= j && j + |END| <= |post| ensures !OccursAt(post, END, j) {
      assert text[stop + j..stop + j + |END|] == post[j..j + |END|];
      assert !OccursAt(text, END, stop + j);
    }
    SpliceFixesCard(pre, card, post);
  }

  /**
   * Updating twice with the same well-formed card changes nothing the second
   * time. When the README had no marker block the first run appended the
   * card, and the property needs the old text to hold no stray begin marker.
   */
  lemma UpdateIdempotent(existing: Option<string>, card: string)
    requires WellFormedCard(card)
    requires existing.Some? && MarkerSpan(existing.value).None? ==> Absent(existing.value, BEGIN)
    ensures var once := UpdateReadme(existing, card);
      UpdateReadme(Some(once.content), card) == ReadmeUpdate(once.content, false)
  {
    match existing {
      case None =>
        SpliceFixesCard([], card, []);
        assert [] + card + [] == card;
      case Some(text) =>
        if MarkerSpan(text).None? {
          AppendedCardStays(text, card);
        } else {
          SplicedCardStays(text, card);
        }
    }
  }

  /** After the update the README shows the card, whatever it held before. */
  lemma UpdateShowsCard(existing: Option<string>, card: string)
    ensures var r := UpdateReadme(existing, card);
      exists i :: OccursAt(r.content, card, i)
  {
    var r := UpdateReadme(existing, card);
    match existing {
      case None =>
        assert OccursAt(r.content, card, 0);
      case Some(text) =>
        match MarkerSpan(text) {
          case None =>
            var i := |text| + 2;
            assert OccursAt(r.content, card, i);
          case Some((start, stop)) =>
            assert OccursAt(r.content, card, start);
        }
    }
  }

  /** A README holding a begin marker with no end marker after it, and an example card, to exhibit the limit of `UpdateIdempotent`. */
  const STRAY_TEXT: string := BEGIN
  const SAMPLE_CARD: string := BEGIN + END

  /** With a stray begin marker, the second run cuts the blank line and the first card away. */
  lemma StrayBeginBreaksIdempotence()
    ensures UpdateReadme(Some(STRAY_TEXT), SAMPLE_CARD).content == STRAY_TEXT + "\n\n" + SAMPLE_CARD
    ensures UpdateReadme(Some(STRAY_TEXT + "\n\n" + SAMPLE_CARD), SAMPLE_CARD) == ReadmeUpdate(SAMPLE_CARD, true)
  {
    var t := STRAY_TEXT + "\n\n" + SAMPLE_CARD;
    assert MarkerSpan(STRAY_TEXT) == None by {
      assert FirstAt(STRAY_TEXT, BEGIN, 0) == Some(0);
      assert LastAt(STRAY_TEXT, END, |BEGIN|) == None;
    }
    assert OccursAt(t, BEGIN, 0);
    assert FirstAt(t, BEGIN, 0) == Some(0);
    var q := |t| - |END|;
    assert t[q..] == END;
    assert OccursAt(t, END, q);
    assert LastAt(t, END, |BEGIN|) == Some(q);
    assert MarkerSpan(t) == Some((0, |t|));
    assert t[..0] + SAMPLE_CARD + t[|t|..] == SAMPLE_CARD;
  }
}
