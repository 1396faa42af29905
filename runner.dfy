/** One run of the mirror (`run` in the source): the ignore list, the
    choice of songs to download, and what each download task does.
    Time, concurrency and the actual I/O stay outside: the filesystem is
    the set of paths that exist, the `.ignore` file its optional text,
    and the network and the id3 library are functions handed in. */
module Runner {
  import opened Wrappers
  import opened Json
  import opened Http
  import Text
  import opened Tx
  import opened Tag

  /** The settings a run reads. */
  datatype Config = Config(dir: string, playId: Int64, apiUrl: string, apiKey: string)

  /** The ignore list: nothing without a `.ignore` file, otherwise one
      entry per line of it, in order, each with its surrounding white
      space trimmed. */
  function ParseIgnore(file: Option<string>): (r: seq<string>)
    ensures file.None? ==> r == []
    ensures file.Some? ==> |r| == |Text.Lines(file.value)|
    ensures file.Some? ==> forall i :: 0 <= i < |r| ==> r[i] == Text.Trim(Text.Lines(file.value)[i])
    ensures forall i :: 0 <= i < |r| ==> Text.IsTrimmed(r[i]) && '\n' !in r[i]
  {
    match file
    case None => []
    case Some(content) =>
      var lines := Text.Lines(content);
      var r := seq(|lines|, i requires 0 <= i < |lines| => Text.Trim(lines[i]));
      assert forall i :: 0 <= i < |r| ==> forall c :: c in r[i] ==> c in lines[i];
      r
  }

  /** A name is ignored exactly when some line of the file trims to it. */
  lemma IgnoredExactly(content: string, name: string)
    ensures name in ParseIgnore(Some(content)) <==>
      exists i :: 0 <= i < |Text.Lines(content)| && Text.Trim(Text.Lines(content)[i]) == name
  {
    var r := ParseIgnore(Some(content));
    if name in r {
      var i :| 0 <= i < |r| && r[i] == name;
      assert Text.Trim(Text.Lines(content)[i]) == name;
    }
  }

  /** An ignore file saved with Windows line ends lists the same names as
      the same file saved with Unix line ends. */
  lemma ParseIgnoreCrlf(content: string)
    requires forall j :: 0 <= j < |content| ==> content[j] != '\r'
    ensures ParseIgnore(Some(Text.ToCrlf(content))) == ParseIgnore(Some(content))
  {
    Text.LinesToCrlf(content);
  }

  /** How the selection loop treats a song. */
  datatype Verdict = Present | Ignored | Download

  /** What the selection loop consults: the content directory, the paths
      that exist, the ignore list and the file-name sanitiser (a library
      function, left uninterpreted). */
  datatype Mirror = Mirror(dir: string, files: set<string>, ignored: seq<string>, sanitise: string -> string)
  {
    /** `format!("{}/{}.mp3", dir, sanitise(name))`: where a song's file
        is looked for and where its task writes it. */
    function Path(name: string): string {
      dir + "/" + sanitise(name) + ".mp3"
    }

    /** The existence test comes first and uses the sanitised name; only
        a song with no file is looked up, by its raw name, in the ignore list. */
    function Classify(song: Song): Verdict {
      if Path(song.name) in files then Present
      else if song.name in ignored then Ignored
      else Download
    }

    /** The same mirror after `extra` has been written. */
    function WithFiles(extra: set<string>): Mirror {
      this.(files := files + extra)
    }
  }

  /** The songs the loop gives verdict `v`, in playlist order. */
  function Keep(m: Mirror, songs: seq<Song>, v: Verdict): seq<Song>
    decreases |songs|
  {
    if |songs| == 0 then []
    else
      var last := songs[|songs| - 1];
      Keep(m, songs[..|songs| - 1], v) + if m.Classify(last) == v then [last] else []
  }

  /** The names of `songs`, in order. */
  function Names(songs: seq<Song>): (r: seq<string>)
    ensures |r| == |songs| && forall i :: 0 <= i < |songs| ==> r[i] == songs[i].name
    decreases |songs|
  {
    if |songs| == 0 then [] else Names(songs[..|songs| - 1]) + [songs[|songs| - 1].name]
  }

  /** The selection loop of `run`: walks the playlist in order, passes
      over a song whose file exists, reports and passes over an absent
      song whose name is ignored, and keeps every other song. Returns the
      songs to download and the names reported as "Skipping ignored song". */
  method SelectSongs(m: Mirror, songs: seq<Song>) returns (needToDownload: seq<Song>, skipped: seq<string>)
    ensures needToDownload == Keep(m, songs, Download)
    ensures skipped == Names(Keep(m, songs, Ignored))
  {
    needToDownload := [];
    skipped := [];
    for i := 0 to |songs|
      invariant needToDownload == Keep(m, songs[..i], Download)
      invariant skipped == Names(Keep(m, songs[..i], Ignored))
    {
      assert songs[..i + 1][..i] == songs[..i];
      var song := songs[i];
      if m.Path(song.name) in m.files {
        continue;
      } else if song.name in m.ignored {
        skipped := skipped + [song.name];
        continue;
      } else {
        needToDownload := needToDownload + [song];
      }
    }
    assert songs[..|songs|] == songs;
  }

  /** A song occurs among the songs with verdict `v` exactly as often as in
      the playlist when its verdict is `v`, and never otherwise: nothing
      is added and duplicates are not removed. */
  lemma {:induction false} KeepCount(m: Mirror, songs: seq<Song>, v: Verdict)
    ensures forall s :: multiset(Keep(m, songs, v))[s] == if m.Classify(s) == v then multiset(songs)[s] else 0
    decreases |songs|
  {
    if |songs| > 0 {
      var front := songs[..|songs| - 1];
      var last := songs[|songs| - 1];
      assert songs == front + [last];
      KeepCount(m, front, v);
    }
  }

  /** Membership in the songs with verdict `v`. */
  lemma {:induction false} KeepExactly(m: Mirror, songs: seq<Song>, v: Verdict)
    ensures forall s :: s in Keep(m, songs, v) <==> s in songs && m.Classify(s) == v
  {
    KeepCount(m, songs, v);
    assert forall s :: s in Keep(m, songs, v) <==> multiset(Keep(m, songs, v))[s] > 0;
  }

  /** The exact rule: a song is selected iff it is in the playlist, its
      file `dir/sanitise(name).mp3` is absent and its raw name is not in
      the ignore list. */
  lemma {:induction false} SelectedExactly(m: Mirror, songs: seq<Song>)
    ensures forall s :: s in Keep(m, songs, Download) <==>
      s in songs && m.Path(s.name) !in m.files && s.name !in m.ignored
  {
    KeepExactly(m, songs, Download);
  }

  /** The positions of the playlist whose song has verdict `v`, ascending. */
  ghost function Positions(m: Mirror, songs: seq<Song>, v: Verdict): seq<nat>
    decreases |songs|
  {
    if |songs| == 0 then []
    else
      var n := |songs| - 1;
      Positions(m, songs[..n], v) + if m.Classify(songs[n]) == v then [n] else []
  }

  /** The positions with verdict `v` are increasing and are exactly the
      positions whose song has that verdict. */
  lemma {:induction false} PositionsExactly(m: Mirror, songs: seq<Song>, v: Verdict)
    ensures var p := Positions(m, songs, v);
      && (forall k :: 0 <= k < |p| ==> p[k] < |songs|)
      && (forall k, l :: 0 <= k < l < |p| ==> p[k] < p[l])
      && (forall i :: 0 <= i < |songs| ==> (i in p <==> m.Classify(songs[i]) == v))
    decreases |songs|
  {
    if |songs| > 0 {
      var n := |songs| - 1;
      var front := songs[..n];
      PositionsExactly(m, front, v);
      var p0 := Positions(m, front, v);
      assert forall i :: 0 <= i < n ==> front[i] == songs[i];
      assert n !in p0;
      if m.Classify(songs[n]) == v {
        var p := p0 + [n];
        assert Positions(m, songs, v) == p;
        assert forall i :: 0 <= i < n ==> (i in p <==> i in p0);
      } else {
        assert Positions(m, songs, v) == p0;
      }
    }
  }

  /** The k-th song kept with verdict `v` is the song at the k-th such position. */
  lemma {:induction false} KeepAtPositions(m: Mirror, songs: seq<Song>, v: Verdict)
    ensures var p := Positions(m, songs, v); var kept := Keep(m, songs, v);
      && |p| == |kept|
      && (forall k :: 0 <= k < |p| ==> p[k] < |songs| && kept[k] == songs[p[k]])
    decreases |songs|
  {
    if |songs| > 0 {
      var n := |songs| - 1;
      var front := songs[..n];
      KeepAtPositions(m, front, v);
      assert forall i :: 0 <= i < n ==> front[i] == songs[i];
    }
  }

  /** The songs with verdict `v` form an order-preserving subsequence of
      the playlist that picks every position whose song has that verdict
      and no other. */
  lemma {:induction false} KeepIsSubsequence(m: Mirror, songs: seq<Song>, v: Verdict)
    ensures var p := Positions(m, songs, v); var kept := Keep(m, songs, v);
      && |p| == |kept|
      && (forall k :: 0 <= k < |p| ==> p[k] < |songs| && kept[k] == songs[p[k]])
      && (forall k, l :: 0 <= k < l < |p| ==> p[k] < p[l])
      && (forall i :: 0 <= i < |songs| ==> (i in p <==> m.Classify(songs[i]) == v))
  {
    PositionsExactly(m, songs, v);
    KeepAtPositions(m, songs, v);
  }

  /** Every song of the playlist gets exactly one verdict: present,
      ignored and selected together are the playlist. */
  lemma {:induction false} Partition(m: Mirror, songs: seq<Song>)
    ensures multiset(songs) ==
      multiset(Keep(m, songs, Present)) + multiset(Keep(m, songs, Ignored)) + multiset(Keep(m, songs, Download))
    decreases |songs|
  {
    if |songs| > 0 {
      var front := songs[..|songs| - 1];
      assert songs == front + [songs[|songs| - 1]];
      Partition(m, front);
    }
  }

  /** Existence is checked before the ignore list: a reported name never
      belongs to a song whose file exists, and the reports name exactly
      the songs that are absent and ignored. */
  lemma {:induction false} IgnoredReports(m: Mirror, songs: seq<Song>)
    ensures forall n :: n in Names(Keep(m, songs, Ignored)) ==> m.Path(n) !in m.files && n in m.ignored
    ensures forall i :: 0 <= i < |songs| ==>
      (m.Path(songs[i].name) !in m.files && songs[i].name in m.ignored <==> songs[i] in Keep(m, songs, Ignored))
    ensures forall i :: 0 <= i < |songs| && songs[i] in Keep(m, songs, Ignored) ==>
      songs[i].name in Names(Keep(m, songs, Ignored))
  {
    var kept := Keep(m, songs, Ignored);
    KeepExactly(m, songs, Ignored);
    forall i | 0 <= i < |songs| && songs[i] in kept
      ensures songs[i].name in Names(kept)
    {
      var k :| 0 <= k < |kept| && kept[k] == songs[i];
      assert Names(kept)[k] == songs[i].name;
    }
    forall n | n in Names(kept)
      ensures m.Path(n) !in m.files && n in m.ignored
    {
      var k :| 0 <= k < |kept| && Names(kept)[k] == n;
      assert kept[k] in kept;
    }
  }

  /** Selecting again after more files were written picks the previously
      selected songs whose paths are still absent, and nothing else. */
  lemma {:induction false} RerunSelectsUnwritten(m: Mirror, songs: seq<Song>, written: set<string>)
    ensures Keep(m.WithFiles(written), songs, Download) ==
      Keep(m.WithFiles(written), Keep(m, songs, Download), Download)
    decreases |songs|
  {
    if |songs| > 0 {
      var front := songs[..|songs| - 1];
      var last := songs[|songs| - 1];
      RerunSelectsUnwritten(m, front, written);
      var m' := m.WithFiles(written);
      if m.Classify(last) == Download {
        var kept := Keep(m, front, Download);
        assert (kept + [last])[..|kept + [last]| - 1] == kept;
      } else {
        assert Keep(m, songs, Download) == Keep(m, front, Download);
        assert m'.Classify(last) != Download;
        assert Keep(m', songs, Download) == Keep(m', front, Download);
      }
    }
  }

  /** No song has verdict `v`, so none is kept. */
  lemma {:induction false} KeepNone(m: Mirror, songs: seq<Song>, v: Verdict)
    requires forall s :: s in songs ==> m.Classify(s) != v
    ensures Keep(m, songs, v) == []
    decreases |songs|
  {
    if |songs| > 0 {
      var front := songs[..|songs| - 1];
      assert forall s :: s in front ==> s in songs;
      KeepNone(m, front, v);
    }
  }

  /** The paths of the files the tasks for `songs` write. */
  function Paths(m: Mirror, songs: seq<Song>): set<string> {
    set s | s in songs :: m.Path(s.name)
  }

  /** The path checked is the path written: once every selected song's
      file exists, selecting again on the same playlist finds nothing. */
  lemma RerunSelectsNothing(m: Mirror, songs: seq<Song>)
    ensures Keep(m.WithFiles(Paths(m, Keep(m, songs, Download))), songs, Download) == []
  {
    var need := Keep(m, songs, Download);
    var m' := m.WithFiles(Paths(m, need));
    RerunSelectsUnwritten(m, songs, Paths(m, need));
    forall s | s in need
      ensures m'.Classify(s) == Present
    {
      assert m.Path(s.name) in Paths(m, need);
    }
    KeepNone(m', need, Download);
  }

  /** `format!("{}/url/tx/{}/320k", lx_api_url, id)` */
  function ResolveUrl(apiUrl: string, id: string): string {
    apiUrl + "/url/tx/" + id + "/320k"
  }

  /** The request a task sends to resolve the download URL of track `id`:
      its URL is the API base, "/url/tx/", the id and "/320k", and it
      carries the API key. */
  function ResolveRequest(apiUrl: string, apiKey: string, id: string): (r: Request)
    ensures Text.StripAffixes(r.url, apiUrl + "/url/tx/", "/320k") == Some(id)
    ensures r.headers == [("X-Request-Key", apiKey)]
  {
    Text.StripAffixesInverse(apiUrl + "/url/tx/", id, "/320k");
    Get(ResolveUrl(apiUrl, id), [("X-Request-Key", apiKey)])
  }

  /** Distinct tracks are resolved at distinct URLs. */
  lemma ResolveUrlInjective(apiUrl: string, a: string, b: string)
    ensures ResolveUrl(apiUrl, a) == ResolveUrl(apiUrl, b) ==> a == b
  {
    Text.StripAffixesInverse(apiUrl + "/url/tx/", a, "/320k");
    Text.StripAffixesInverse(apiUrl + "/url/tx/", b, "/320k");
  }

  /** `json["url"].as_str()`: the download URL, present only when the
      reply is an object whose `url` is a string. */
  function DownloadUrl(reply: Json): (r: Option<string>)
    ensures r.Some? <==> reply.Obj? && "url" in reply.fields && reply.fields["url"].Str?
    ensures r.Some? ==> r.value == reply.fields["url"].s
  {
    reply.Key("url").AsStr()
  }

  /** The step at which a task stopped. `UrlMissing` is an `unwrap` that
      panics in the source; the others are errors returned by `?`. */
  datatype Stage = ResolveFailed | UrlMissing | DownloadFailed | TagUnreadable | LyricsUnavailable | TagWriteFailed | WriteFailed

  datatype Outcome = Failed(stage: Stage) | Written(path: string, frames: seq<Frame>, data: seq<Byte>)

  /** The requests a task sent, in order, and how it ended. */
  datatype TaskRun = TaskRun(requests: seq<Request>, outcome: Outcome)

  /** The outside world as one task meets it. */
  datatype World = World(
    resolve: Request -> Option<Json>,                         // reply parsed as JSON; None if sending, reading or parsing fails
    fetch: Request -> Option<seq<Byte>>,                      // body bytes; None if sending or reading fails
    readTag: seq<Byte> -> Option<seq<Frame>>,                 // the id3 tag of the bytes; None if unreadable
    lyric: Song -> Option<string>,                            // `get_lyric`; None if it fails
    writeTag: (seq<Frame>, seq<Byte>) -> Option<seq<Byte>>,   // the bytes with the tag written in; None if that fails
    writeFile: (string, seq<Byte>) -> bool)                   // whether writing the file succeeds

  /** The body of one download task: resolve the URL, fetch the audio,
      read its tag, fetch the lyrics, replace the lyrics frame, write the
      tag into the bytes and the bytes to the song's path. */
  function RunTask(m: Mirror, apiUrl: string, apiKey: string, world: World, song: Song): TaskRun {
    var resolve := ResolveRequest(apiUrl, apiKey, song.id);
    match world.resolve(resolve)
    case None => TaskRun([resolve], Failed(ResolveFailed))
    case Some(reply) =>
      match DownloadUrl(reply)
      case None => TaskRun([resolve], Failed(UrlMissing))
      case Some(url) =>
        var download := Get(url, []);
        var sent := [resolve, download];
        match world.fetch(download)
        case None => TaskRun(sent, Failed(DownloadFailed))
        case Some(data) =>
          match world.readTag(data)
          case None => TaskRun(sent, Failed(TagUnreadable))
          case Some(frames) =>
            match world.lyric(song)
            case None => TaskRun(sent, Failed(LyricsUnavailable))
            case Some(lyrics) =>
              var edited := EmbedLyrics(frames, lyrics);
              match world.writeTag(edited, data)
              case None => TaskRun(sent, Failed(TagWriteFailed))
              case Some(out) =>
                var path := m.Path(song.name);
                if world.writeFile(path, out) then TaskRun(sent, Written(path, edited, out))
                else TaskRun(sent, Failed(WriteFailed))
  }

  /** A reply without a string `url` fails the task right after the
      resolve request: nothing is downloaded and nothing is written. */
  lemma TaskWithoutUrl(m: Mirror, apiUrl: string, apiKey: string, world: World, song: Song)
    requires world.resolve(ResolveRequest(apiUrl, apiKey, song.id)).Some?
    requires !world.resolve(ResolveRequest(apiUrl, apiKey, song.id)).value.Key("url").Str?
    ensures RunTask(m, apiUrl, apiKey, world, song) ==
      TaskRun([ResolveRequest(apiUrl, apiKey, song.id)], Failed(UrlMissing))
  {
  }

  /** A task writes exactly when every step succeeds. What it writes goes
      to the path the selection checked, after a download from the URL
      the resolve reply named, and carries a tag with exactly one lyrics
      frame, holding the fetched lyrics, after the old tag's other frames
      unchanged and in order. */
  lemma TaskWritten(m: Mirror, apiUrl: string, apiKey: string, world: World, song: Song)
    ensures var run := RunTask(m, apiUrl, apiKey, world, song);
      var resolve := ResolveRequest(apiUrl, apiKey, song.id);
      run.outcome.Written? <==>
        && world.resolve(resolve).Some?
        && DownloadUrl(world.resolve(resolve).value).Some?
        && var download := Get(DownloadUrl(world.resolve(resolve).value).value, []);
        && world.fetch(download).Some?
        && world.readTag(world.fetch(download).value).Some?
        && world.lyric(song).Some?
        && var edited := EmbedLyrics(world.readTag(world.fetch(download).value).value, world.lyric(song).value);
        && world.writeTag(edited, world.fetch(download).value).Some?
        && world.writeFile(m.Path(song.name), world.writeTag(edited, world.fetch(download).value).value)
    ensures var run := RunTask(m, apiUrl, apiKey, world, song);
      var resolve := ResolveRequest(apiUrl, apiKey, song.id);
      run.outcome.Written? ==>
        var url := DownloadUrl(world.resolve(resolve).value).value;
        var old_frames := world.readTag(world.fetch(Get(url, [])).value).value;
        var f := run.outcome.frames;
        && run.requests == [resolve, Get(url, [])]
        && run.outcome.path == m.Path(song.name)
        && |f| > 0 && f[|f| - 1] == Lyrics("unknown", "lyrics", world.lyric(song).value)
        && (forall i :: 0 <= i < |f| ==> (IsLyrics(f[i]) <==> i == |f| - 1))
        && RemoveAllLyrics(f) == RemoveAllLyrics(old_frames)
        && run.outcome.data == world.writeTag(f, world.fetch(Get(url, [])).value).value
  {
    var run := RunTask(m, apiUrl, apiKey, world, song);
    if run.outcome.Written? {
      var resolve := ResolveRequest(apiUrl, apiKey, song.id);
      var url := DownloadUrl(world.resolve(resolve).value).value;
      EmbedLyricsSpec(world.readTag(world.fetch(Get(url, [])).value).value, world.lyric(song).value);
    }
  }

  /** What the next run selects after this run's tasks: the songs whose
      task failed, except where another song written in this run has the
      same path. When every task writes, the next run selects nothing. */
  lemma RerunAfterTasks(m: Mirror, apiUrl: string, apiKey: string, world: World, songs: seq<Song>)
    ensures var need := Keep(m, songs, Download);
      var written := set s | s in need && RunTask(m, apiUrl, apiKey, world, s).outcome.Written? :: m.Path(s.name);
      forall s :: s in Keep(m.WithFiles(written), songs, Download) <==>
        s in need && !RunTask(m, apiUrl, apiKey, world, s).outcome.Written? && m.Path(s.name) !in written
  {
    var need := Keep(m, songs, Download);
    var written := set s | s in need && RunTask(m, apiUrl, apiKey, world, s).outcome.Written? :: m.Path(s.name);
    var m' := m.WithFiles(written);
    RerunSelectsUnwritten(m, songs, written);
    SelectedExactly(m, songs);
    SelectedExactly(m', need);
    forall s | s in need && RunTask(m, apiUrl, apiKey, world, s).outcome.Written?
      ensures m.Path(s.name) in written
    {
    }
  }

  /** The first half of `run`: fetch the playlist (its failure ends the
      run before anything else), read the ignore list, select the songs.
      Returns the songs to download and the names reported as ignored. */
  method SelectWork(cfg: Config, response: Option<Json>, ignoreFile: Option<string>,
                    files: set<string>, sanitise: string -> string)
    returns (r: Result<(seq<Song>, seq<string>), Tx.Error>)
    ensures Extract(cfg.playId, response).Err? ==> r == Err(Extract(cfg.playId, response).error)
    ensures Extract(cfg.playId, response).Ok? ==>
      var m := Mirror(cfg.dir, files, ParseIgnore(ignoreFile), sanitise);
      var songs := Extract(cfg.playId, response).value.songList;
      r == Ok((Keep(m, songs, Download), Names(Keep(m, songs, Ignored))))
  {
    var playList := NewPlayList(cfg.playId, response);
    if playList.Err? {
      return Err(playList.error);
    }
    var ignored := ParseIgnore(ignoreFile);
    var need, skipped := SelectSongs(Mirror(cfg.dir, files, ignored, sanitise), playList.value.songList);
    return Ok((need, skipped));
  }
}
