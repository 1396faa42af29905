/** The lyrics edit a task makes to a song's ID3 tag, over the tag's
    list of frames. Reading and writing the tag's bytes belongs to the
    id3 library and is not modelled. */
module Tag {
  import opened Http

  /** A tag frame: an unsynchronised-lyrics frame, or any other frame
      kept opaque (its frame id and its payload). */
  datatype Frame =
    | Lyrics(lang: string, description: string, text: string)
    | Other(frameId: string, payload: seq<Byte>)

  /** A frame `remove_all_lyrics` takes out: every frame with the id
      USLT, whether it was decoded into a lyrics frame or is held opaque
      under that id. */
  predicate IsLyrics(f: Frame) {
    match f
    case Lyrics(_, _, _) => true
    case Other(frameId, _) => frameId == "USLT"
  }

  /** Two frames the tag cannot hold side by side, so that adding one
      replaces the other: lyrics frames with the same language and
      description, or other frames with the same id. */
  predicate SameSlot(a: Frame, b: Frame) {
    match a
    case Lyrics(lang, description, _) => b.Lyrics? && b.lang == lang && b.description == description
    case Other(frameId, _) => b.Other? && b.frameId == frameId
  }

  /** `remove_all_lyrics`: the frames whose id is not USLT, in order. */
  function RemoveAllLyrics(frames: seq<Frame>): (r: seq<Frame>)
    ensures forall i :: 0 <= i < |r| ==> !IsLyrics(r[i])
    decreases |frames|
  {
    if |frames| == 0 then []
    else
      var last := frames[|frames| - 1];
      RemoveAllLyrics(frames[..|frames| - 1]) + if IsLyrics(last) then [] else [last]
  }

  /** `remove_all_lyrics` keeps every non-lyrics frame as often as it
      occurs, and nothing else. */
  lemma {:induction false} RemoveAllLyricsKeeps(frames: seq<Frame>)
    ensures forall f :: multiset(RemoveAllLyrics(frames))[f] == if IsLyrics(f) then 0 else multiset(frames)[f]
    decreases |frames|
  {
    if |frames| > 0 {
      var front := frames[..|frames| - 1];
      assert frames == front + [frames[|frames| - 1]];
      RemoveAllLyricsKeeps(front);
    }
  }

  /** Removing lyrics frames works piece by piece, so the frames that
      stay keep their relative order. */
  lemma {:induction false} RemoveAllLyricsAppend(a: seq<Frame>, b: seq<Frame>)
    ensures RemoveAllLyrics(a + b) == RemoveAllLyrics(a) + RemoveAllLyrics(b)
    decreases |b|
  {
    if |b| > 0 {
      var front := b[..|b| - 1];
      assert (a + b)[..|a + b| - 1] == a + front;
      assert (a + b)[|a + b| - 1] == b[|b| - 1];
      RemoveAllLyricsAppend(a, front);
    } else {
      assert a + b == a;
    }
  }

  /** Where the first frame in the slot of `frame` is, or `|frames|`. */
  function FirstInSlot(frames: seq<Frame>, frame: Frame): (k: nat)
    ensures k <= |frames|
    ensures forall j :: 0 <= j < k ==> !SameSlot(frame, frames[j])
    ensures k < |frames| ==> SameSlot(frame, frames[k])
    decreases |frames|
  {
    if |frames| == 0 || SameSlot(frame, frames[0]) then 0 else 1 + FirstInSlot(frames[1..], frame)
  }

  /** `add_frame`: the first frame in the same slot, if any, is taken out
      and the new frame goes at the end. */
  function AddFrame(frames: seq<Frame>, frame: Frame): seq<Frame> {
    var k := FirstInSlot(frames, frame);
    if k == |frames| then frames + [frame] else frames[..k] + frames[k + 1..] + [frame]
  }

  const LyricsLang := "unknown"
  const LyricsDescription := "lyrics"

  /** The edit of a task: `remove_all_lyrics`, then `add_frame` of a
      lyrics frame in language "unknown" with description "lyrics"
      holding `lyrics`. Since no lyrics frame is left to replace, the
      new frame simply follows all the non-lyrics frames. */
  function EmbedLyrics(frames: seq<Frame>, lyrics: string): (r: seq<Frame>)
    ensures r == RemoveAllLyrics(frames) + [Lyrics(LyricsLang, LyricsDescription, lyrics)]
  {
    var kept := RemoveAllLyrics(frames);
    var frame := Lyrics(LyricsLang, LyricsDescription, lyrics);
    assert FirstInSlot(kept, frame) == |kept|;
    AddFrame(kept, frame)
  }

  /** After the edit the tag holds exactly one lyrics frame, the new one,
      and its other frames are those of the old tag, unchanged and in
      their old order. */
  lemma EmbedLyricsSpec(frames: seq<Frame>, lyrics: string)
    ensures var r := EmbedLyrics(frames, lyrics);
      && |r| > 0
      && r[|r| - 1] == Lyrics("unknown", "lyrics", lyrics)
      && (forall i :: 0 <= i < |r| ==> (IsLyrics(r[i]) <==> i == |r| - 1))
      && RemoveAllLyrics(r) == RemoveAllLyrics(frames)
  {
    var kept := RemoveAllLyrics(frames);
    var frame := Lyrics(LyricsLang, LyricsDescription, lyrics);
    RemoveAllLyricsAppend(kept, [frame]);
    assert RemoveAllLyrics([frame]) == [];
    RemoveAllLyricsTwice(frames);
  }

  /** Removing lyrics from a tag without lyrics changes nothing. */
  lemma {:induction false} RemoveAllLyricsTwice(frames: seq<Frame>)
    ensures RemoveAllLyrics(RemoveAllLyrics(frames)) == RemoveAllLyrics(frames)
    decreases |frames|
  {
    if |frames| > 0 {
      var front := frames[..|frames| - 1];
      var last := frames[|frames| - 1];
      RemoveAllLyricsTwice(front);
      RemoveAllLyricsAppend(RemoveAllLyrics(front), if IsLyrics(last) then [] else [last]);
      if !IsLyrics(last) {
        assert [last][..0] == [];
      }
    }
  }

  /** Embedding the same lyrics again leaves the tag as it is. */
  lemma EmbedLyricsIdempotent(frames: seq<Frame>, lyrics: string)
    ensures EmbedLyrics(EmbedLyrics(frames, lyrics), lyrics) == EmbedLyrics(frames, lyrics)
  {
    EmbedLyricsSpec(frames, lyrics);
  }
}
