/**
 * The JW Player media player of the plugin: the embed-descriptor builder and
 * the capability queries the host's media framework asks it. Where the
 * original emits HTML and registers scripts on the page, `Embed` returns an
 * `Embedding` value that carries the same information.
 */
module Player {
  import opened Wrappers
  import opened Php

  /** Default video width when none is requested. */
  const VideoWidth: int := 400
  /** Width and height forced on audio sources (control bar only). */
  const AudioWidth: int := 400
  const AudioHeight: int := 30

  const PlayerIdPrefix: string := "local_jwplayer_media_player_"
  const ModulePath: string := "/local/jwplayer/module.js"
  const SelfHostedPath: string := "/lib/jwplayer/jwplayer.js"
  const DownloadImagePath: string := "/local/jwplayer/img/download.png"

  /** The plugin's stored settings, as `get_config('local_jwplayer', ...)`
      returns them. */
  datatype Config = Config(
    hostingMethod: string,
    secureHosting: string,
    accountToken: string,
    licenseKey: string,
    enabledExtensions: string,
    downloadButton: string)

  /** What the host supplies to `Embed` beyond the request: the site root,
      the MIME classification of a file name (`mimeinfo('string', f) ===
      'audio'`), the parent class's default display name for a URL list, and
      the localised tooltip of the download button. */
  datatype Host = Host(
    wwwroot: string,
    isAudio: string -> bool,
    getName: seq<string> -> string,
    downloadTooltip: string)

  /** One entry of `$options['subtitles']`: its label key and its file URL
      as rendered by the host. */
  datatype Subtitle = Subtitle(trackLabel: string, url: string)
  /** The options bag; `None` when `subtitles` is not set (or null). */
  datatype Options = Options(subtitles: Option<seq<Subtitle>>)

  datatype Source = Source(file: string, mediaType: Option<string>)
  datatype Track = Track(file: string, trackLabel: string)
  datatype PlaylistItem = PlaylistItem(sources: seq<Source>, tracks: Option<seq<Track>>)
  datatype SetupData = SetupData(title: string, playlist: seq<PlaylistItem>, width: int, height: Option<int>)
  datatype DownloadButton = DownloadButton(img: string, tooltipText: string)
  datatype InitParams = InitParams(playerId: string, setupData: SetupData, downloadButton: Option<DownloadButton>)
  datatype JsModule = JsModule(name: string, fullPath: string)

  /** The script the page must load before the player is set up, and for a
      self-hosted player the optional licence-key init code. */
  datatype Library =
    | NoLibrary
    | CloudLibrary(url: string)
    | SelfHostedLibrary(url: string, keyInit: Option<string>)

  /** The result of `embed`: nothing at all, or a player container with the
      library to load and the `M.local_jwplayer.init` call's parameters. */
  datatype Embedding =
    | NoEmbed
    | Embedded(playerId: string, library: Library, jsModule: JsModule, initParams: InitParams, containerText: string)

  /** Whether the raw (still encoded) URL names a QuickTime file. */
  function IsMov(url: string): (b: bool)
    ensures b ==> |Extension(url)| == 3
  {
    Lower(Extension(url)) == "mov"
  }

  /** `dir/stem.ext` is a QuickTime URL exactly when `ext` spells "mov" in
      any mix of cases. */
  lemma IsMovFileName(dir: string, stem: string, ext: string)
    requires '/' !in stem && '/' !in ext && '.' !in ext
    ensures IsMov(dir + "/" + stem + "." + ext) <==>
      |ext| == 3 && ext[0] in {'m', 'M'} && ext[1] in {'o', 'O'} && ext[2] in {'v', 'V'}
  {
    ExtensionOfFileName(dir, stem, ext);
    LowerIsMov(ext);
  }

  /** `sources` has one entry per URL, in order, holding the decoded URL and
      an `mp4` type exactly for `.mov` files. */
  predicate SourcesMatch(urls: seq<string>, sources: seq<Source>) {
    |sources| == |urls| && forall i :: 0 <= i < |urls| ==> SourceOf(urls[i], sources[i])
  }

  /** The source entry for one URL. */
  predicate SourceOf(url: string, source: Source) {
    && source.file == UrlDecode(url)
    && source.mediaType == (if IsMov(url) then Some("mp4") else None)
  }

  /** `tracks` has one `{file, label}` entry per subtitle, in order. */
  predicate TracksMatch(subtitles: seq<Subtitle>, tracks: seq<Track>) {
    && |tracks| == |subtitles|
    && forall i :: 0 <= i < |subtitles| ==>
         tracks[i].file == subtitles[i].url && tracks[i].trackLabel == subtitles[i].trackLabel
  }

  /** The `foreach ($urls ...)` loop of `embed`. */
  method BuildSources(urls: seq<string>) returns (sources: seq<Source>)
    ensures SourcesMatch(urls, sources)
  {
    sources := [];
    for i := 0 to |urls|
      invariant |sources| == i
      invariant forall k :: 0 <= k < i ==> SourceOf(urls[k], sources[k])
    {
      var url := urls[i];
      var source := Source(UrlDecode(url), None);
      if IsMov(url) {
        source := source.(mediaType := Some("mp4"));
      }
      assert SourceOf(url, source);
      sources := sources + [source];
    }
  }

  /** The `foreach ($options['subtitles'] ...)` loop of `embed`. */
  method BuildTracks(subtitles: seq<Subtitle>) returns (tracks: seq<Track>)
    ensures TracksMatch(subtitles, tracks)
  {
    tracks := [];
    for i := 0 to |subtitles|
      invariant |tracks| == i
      invariant forall k :: 0 <= k < i ==>
        tracks[k].file == subtitles[k].url && tracks[k].trackLabel == subtitles[k].trackLabel
    {
      tracks := tracks + [Track(subtitles[i].url, subtitles[i].trackLabel)];
    }
  }

  /** `embed($urls, $name, $width, $height, $options)`. The `name` argument
      is accepted and ignored, as in the original. */
  method Embed(urls: seq<string>, name: string, width: int, height: Option<int>, options: Options,
               cfg: Config, host: Host, randomId: string)
    returns (e: Embedding)
    // No URL, no player: no id, no script, no markup.
    ensures e.NoEmbed? <==> urls == []
    ensures e.Embedded? ==>
      && e.playerId == PlayerIdPrefix + randomId
      && e.jsModule == JsModule(e.playerId, ModulePath)
      && e.initParams.playerId == e.playerId
      && e.containerText == host.getName(urls)
    // The playlist: a single item with the sources and, only when the
    // subtitles option is set, the tracks.
    ensures e.Embedded? ==>
      var setup := e.initParams.setupData;
      && setup.title == host.getName(urls)
      && |setup.playlist| == 1
      && SourcesMatch(urls, setup.playlist[0].sources)
      && (setup.playlist[0].tracks.Some? <==> options.subtitles.Some?)
      && (options.subtitles.Some? ==>
            TracksMatch(options.subtitles.value, setup.playlist[0].tracks.value))
    // Size: requested width or the video default, height only when loosely
    // non-null; an audio first source forces the control-bar size.
    ensures e.Embedded? ==>
      var setup := e.initParams.setupData;
      if host.isAudio(UrlDecode(urls[0])) then
        setup.width == AudioWidth && setup.height == Some(AudioHeight)
      else
        && setup.width == (if width == 0 then VideoWidth else width)
        && (setup.height.Some? <==> LooselyNonNull(height))
        && (setup.height.Some? ==> setup.height == height)
    // Download button exactly when the setting is truthy.
    ensures e.Embedded? ==>
      e.initParams.downloadButton ==
        (if Truthy(cfg.downloadButton)
         then Some(DownloadButton(host.wwwroot + DownloadImagePath, host.downloadTooltip))
         else None)
    // Library directive by hosting method.
    ensures e.Embedded? && cfg.hostingMethod == "cloud" ==>
      e.library ==
        (if Truthy(cfg.accountToken)
         then CloudLibrary((if Truthy(cfg.secureHosting) then "https" else "http")
                           + "://jwpsrv.com/library/" + cfg.accountToken + ".js")
         else NoLibrary)
    ensures e.Embedded? && cfg.hostingMethod == "self" ==>
      e.library ==
        SelfHostedLibrary(SelfHostedPath,
          if Truthy(cfg.licenseKey) then Some("jwplayer.key='" + cfg.licenseKey + "'") else None)
    ensures e.Embedded? && cfg.hostingMethod != "cloud" && cfg.hostingMethod != "self" ==>
      e.library == NoLibrary
    // A player that `IsEnabled` admits always gets a library to load.
    ensures e.Embedded? && IsEnabled(cfg, true) && cfg.hostingMethod in {"cloud", "self"} ==>
      !e.library.NoLibrary?
  {
    var sources := BuildSources(urls);
    if |sources| == 0 {
      return NoEmbed;
    }
    var playerId := PlayerIdPrefix + randomId;

    var tracks: Option<seq<Track>> := None;
    if options.subtitles.Some? {
      var ts := BuildTracks(options.subtitles.value);
      tracks := Some(ts);
    }
    var item := PlaylistItem(sources, tracks);

    var w := width;
    if w == 0 {
      w := VideoWidth;
    }
    var setup := SetupData(host.getName(urls), [item], w, None);
    if LooselyNonNull(height) {
      setup := setup.(height := height);
    }
    if host.isAudio(sources[0].file) {
      setup := setup.(width := AudioWidth, height := Some(AudioHeight));
    }

    var jsModule := JsModule(playerId, ModulePath);
    var initParams := InitParams(playerId, setup, None);
    if Truthy(cfg.downloadButton) {
      initParams := initParams.(downloadButton :=
        Some(DownloadButton(host.wwwroot + DownloadImagePath, host.downloadTooltip)));
    }

    var library := NoLibrary;
    if cfg.hostingMethod == "cloud" {
      var proto := if Truthy(cfg.secureHosting) then "https" else "http";
      if Truthy(cfg.accountToken) {
        library := CloudLibrary(proto + "://jwpsrv.com/library/" + cfg.accountToken + ".js");
      }
    } else if cfg.hostingMethod == "self" {
      var keyInit := None;
      if Truthy(cfg.licenseKey) {
        keyInit := Some("jwplayer.key='" + cfg.licenseKey + "'");
      }
      library := SelfHostedLibrary(SelfHostedPath, keyInit);
    }

    e := Embedded(playerId, library, jsModule, initParams, host.getName(urls));
  }

  /** `get_supported_extensions`: the stored comma-separated list, split. */
  function GetSupportedExtensions(cfg: Config): (r: seq<string>)
    ensures |r| >= 1
    ensures forall i :: 0 <= i < |r| ==> ',' !in r[i]
    ensures Implode(',', r) == cfg.enabledExtensions
  {
    ImplodeExplode(',', cfg.enabledExtensions);
    Explode(',', cfg.enabledExtensions)
  }

  const VideoExtensions: seq<string> := ["mp4", "m4v", "f4v", "mov", "flv", "webm", "ogv"]
  const AudioExtensions: seq<string> := ["aac", "m4a", "f4a", "mp3", "ogg", "oga"]
  const StreamingExtensions: seq<string> := ["m3u8"]

  /** `list_supported_extensions`: every extension the player can handle,
      video first, then audio, then streaming. */
  function ListSupportedExtensions(): (r: seq<string>)
    ensures |r| == 14
    ensures r[..7] == VideoExtensions && r[7..13] == AudioExtensions && r[13..] == StreamingExtensions
    ensures forall i, j :: 0 <= i < j < |r| ==> r[i] != r[j]
    ensures forall i :: 0 <= i < |r| ==> r[i] != "" && ',' !in r[i]
  {
    VideoExtensions + AudioExtensions + StreamingExtensions
  }

  /** The settings page offers the supported extensions as a multi-select
      whose default is all of them; stored comma-joined, that default reads
      back through `GetSupportedExtensions` as the same list. */
  lemma DefaultEnabledExtensions(cfg: Config)
    requires cfg.enabledExtensions == Implode(',', ListSupportedExtensions())
    ensures GetSupportedExtensions(cfg) == ListSupportedExtensions()
  {
    ExplodeImplode(',', ListSupportedExtensions());
  }

  /** `get_rank`: the fixed rank reported to the host. */
  function GetRank(): (r: int)
    ensures r == 1
  {
    1
  }

  /** `is_enabled`: false for cloud hosting without an account token and for
      self-hosting without a readable library file; true otherwise. */
  function IsEnabled(cfg: Config, assetReadable: bool): (r: bool)
    ensures !r <==>
      (cfg.hostingMethod == "cloud" && !Truthy(cfg.accountToken)) ||
      (cfg.hostingMethod == "self" && !assetReadable)
  {
    if cfg.hostingMethod == "cloud" && !Truthy(cfg.accountToken) then false
    else if cfg.hostingMethod == "self" && !assetReadable then false
    else true
  }

  /** What a caller can conclude from `Embed`'s contract alone. */
  method EmbedClient(cfg: Config, host: Host, randomId: string, dir: string, stem: string, vtt: string)
    requires '/' !in stem
  {
    var none := Embed([], "clip", 640, Some(480), Options(None), cfg, host, randomId);
    assert none == NoEmbed;

    var url := dir + "/" + stem + ".mov";
    var e := Embed([url], "", 0, Some(0), Options(Some([Subtitle("English", vtt)])),
                   cfg, host, randomId);
    assert e.Embedded?;
    var setup := e.initParams.setupData;
    var source := setup.playlist[0].sources[0];
    assert source.file == UrlDecode(url);
    assert url == dir + "/" + stem + "." + "mov";
    IsMovFileName(dir, stem, "mov");
    assert source.mediaType == Some("mp4");
    var tracks := setup.playlist[0].tracks.value;
    assert |tracks| == 1 && tracks[0] == Track(vtt, "English");
    assert tracks == [Track(vtt, "English")];
    if host.isAudio(source.file) {
      assert setup.width == 400 && setup.height == Some(30);
    } else {
      assert setup.width == VideoWidth;
      assert setup.height == None;
    }
  }
}
