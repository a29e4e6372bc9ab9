# JW Player media player for Moodle: a Dafny model

This project models the core of the `local_jwplayer` Moodle plugin, which
plugs the third-party JW Player into Moodle's media framework. The model covers:

- **Embed-descriptor builder** (`Player.Embed`). From a list of media URLs, a
  requested size and an options bag, it builds what the player needs:
  - the playlist item's sources, each the URL-decoded file, with an `mp4` type
    hint on `.mov` files;
  - the optional subtitle tracks;
  - the width and the height, including the control-bar size for audio;
  - the optional download button;
  - the library script to load (cloud or self-hosted, with an optional licence-key init);
  - the player container id.

  The original emits HTML and registers scripts on the page. Here `Embed`
  returns an `Embedding` value that carries the same information. The `foreach`
  loops over URLs and subtitles are the methods `BuildSources` and `BuildTracks`.
- **Capability queries**: `IsEnabled`, `GetRank`, `ListSupportedExtensions` and
  `GetSupportedExtensions`.
- **Admin-setting validators**:
  - the hosting-method setting refuses `self` while the self-hosted library file
    is unreadable;
  - the account-token setting refuses an empty token under cloud hosting.

  The class `HostingMethodSetting` has `WriteSetting`, which hands a value on
  for storage only when it validates.
- **PHP built-ins** the code relies on, modelled concretely in module `Php`:
  - truthiness of string settings (`""` and `"0"` are false);
  - the loose `$height != null`;
  - `urldecode`, paired with a section 2.1 RFC 3986 percent-encoder that it inverts;
  - ASCII `strtolower`;
  - `pathinfo(..., PATHINFO_EXTENSION)` (last run of non-`/` bytes, then what
    follows its last `.`);
  - `explode` and `implode`.

Modules are `Wrappers` (`Option`), `Php`, `Player` (player.php) and
`AdminSettings` (adminlib.php).

The host's collaborators are parameters:
- the stored settings are a `Config` record;
- the readability of `lib/jwplayer/jwplayer.js` is a `bool`;
- `mimeinfo(...) === 'audio'` and the parent class's `get_name` are functions in a `Host` record;
- `html_writer::random_id()` is a string argument;
- the generic text setting's own `validate` is a function argument.

The model follows the code in these points, where its behaviour may be unexpected:
- The player's title is always `get_name('', $urls)`. The `$name` argument is ignored.
- An explicitly empty subtitles mapping yields `tracks = []`. Only an absent or
  null one omits `tracks`.
- A hosting method other than `cloud` or `self` is possible, and gets no library.
- Enabled extensions are an ordered list split on `,`, not a set.

## Model

| member | source | states |
|---|---|---|
| `Php.UrlDecode` | player.php:69 | decoding never lengthens the URL (`+` and `%XX` shrink or keep size) |
| `Php.UrlDecodePercentEncode` | player.php:69 | `urldecode` inverts RFC 3986 percent-encoding of any byte string |
| `Php.UrlDecodeNoPercent` | player.php:69 | without `%` escapes, decoding keeps the length and turns exactly each `+` into a space, leaving every other byte as it is (the `urldecode` rule `rawurldecode` lacks) |
| `Php.UrlDecodeSlashEscape` | player.php:69 | escapes accept hex digits of either case: `%2f` and `%2F` both decode to `/` |
| `Php.UrlDecodeBarePercent` | player.php:69 | a `%` not followed by two hex digits is kept as a literal `%` |
| `Php.UrlDecodePlain` | player.php:69 | a URL with no `%` and no `+` decodes to itself |
| `Php.UrlDecodeConcat` | player.php:69 | decoding works piecewise after a prefix without `%` |
| `Php.UrlDecodeSpace` | player.php:69 | `p%20rest` decodes to `p rest` when `p` and `rest` are plain (e.g. `test%20file.mov`) |
| `Php.Truthy` | player.php:128-151 | PHP truthiness of a string setting, used by `if (get_config(...))` (player.php:128, 138, 140, 148) and by `empty()` (player.php:202, adminlib.php:99): only `""` and `"0"` are falsy, and every string of two or more bytes (`"00"`, `"0.0"`) is truthy |
| `Php.LooselyNonNull` | player.php:108 | the loose `$height != null`: both `None` (null) and `Some(0)` compare equal to null, and every other height does not |
| `Php.Lower` | player.php:71 | `strtolower` keeps the length |
| `Php.LowerAt` | player.php:71 | each byte of the lower-cased string is the lower-cased byte at that place (ASCII `A`-`Z` shifted down, everything else kept) |
| `Php.LowerIsMov` | player.php:71 | a string lower-cases to `mov` exactly when it spells `mov` in any mix of cases |
| `Php.Basename` | player.php:71 | the basename `pathinfo` works on never contains `/` |
| `Php.BasenameOfPath` | player.php:71 | the basename of `dir/name` is exactly `name`, for any non-empty name without `/` |
| `Php.ExtensionNoDot` | player.php:71 | a last path segment without a `.` gives the empty extension, whatever dots the directory part holds (`http://video.mov/clip`) |
| `Php.Extension` | player.php:71 | the extension `pathinfo` yields never contains a `.` |
| `Php.ExtensionOfFileName` | player.php:71 | the extension of `dir/stem.ext` is exactly `ext`, whatever the directory and however many dots the stem has |
| `Php.Explode` | player.php:169 | `explode` gives at least one piece and no piece contains the separator |
| `Php.ImplodeExplode` | player.php:168-170 | joining the pieces with the separator gives back the original string |
| `Php.ExplodeImplode` | player.php:168-170 | splitting a comma-joined list of comma-free pieces gives back the list |
| `Player.IsMov` | player.php:71 | a URL tagged as QuickTime has a three-byte extension |
| `Player.IsMovFileName` | player.php:71-73 | `dir/stem.ext` gets the `mp4` tag exactly when `ext` is `mov` in any mix of cases (`.MOV`, `.Mov`, ...) |
| `Player.BuildSources` | player.php:64-75 | one source per URL, in input order, with `file = urldecode(url)` and `type = mp4` exactly when the raw URL's lower-cased extension is `mov` |
| `Player.BuildTracks` | player.php:84-93 | one `{file, label}` track per subtitle entry, in the mapping's order |
| `Player.Embed` | player.php:59-161 | no URLs give no embed (no id, script or markup) and URLs always give one. Otherwise: the player id is the prefix plus the random id; the title is `get_name('', urls)`; there is one playlist item whose sources are `BuildSources`'s; `tracks` is present exactly when the subtitles option is set; the width is the requested one or 400, and the height is present only when loosely non-null; an audio first source forces 400×30; the download button is present exactly when the setting is truthy; the library is the cloud URL (https exactly when secure hosting is truthy) only with a truthy token, the self-hosted path with a `jwplayer.key` init exactly when the licence key is truthy, and nothing for any other hosting method; an enabled cloud/self player always gets a library |
| `Player.GetSupportedExtensions` | player.php:168-170 | the enabled extensions, comma-free pieces that join back to the stored setting |
| `Player.ListSupportedExtensions` | player.php:177-182 | 14 distinct, non-empty, comma-free extensions: the 7 video, then the 6 audio, then the streaming one |
| `Player.DefaultEnabledExtensions` | settings.php:64-70 | the settings default (all supported extensions, stored comma-joined) reads back as exactly the supported list |
| `Player.GetRank` | player.php:191-193 | the rank is always 1 |
| `Player.IsEnabled` | player.php:198-212 | disabled exactly when cloud hosting has an empty token or self-hosting has no readable library file |
| `AdminSettings.ValidateHostingMethod` | adminlib.php:60-69 | only `errornojwplayerinstalled` or success; the error exactly for `self` with an unreadable file; any other value, `cloud` included, succeeds regardless of the file |
| `AdminSettings.ValidateAccountToken` | adminlib.php:92-103 | a parent refusal is passed on with its own message, as `ParentRejected`, so it is never mistaken for the plugin's own errors; past it, `errornoaccounttoken` exactly when the stored hosting method is `cloud` and the token is PHP-empty (`""` or `"0"`), otherwise success |
| `AdminSettings.HostingMethodSetting.WriteSetting` | adminlib.php:43-49 | returns the validation result; the value is handed on for storage exactly when it validates, and nothing is stored on an error |
| `AdminSettings.ValidatedConfigIsEnabled` | adminlib.php:60-103 | a single configuration whose hosting method and token both validate, the token judged against that same hosting method, is one `is_enabled` accepts |
| `AdminSettings.EnabledConfigValidates` | player.php:198-212 | an enabled configuration passes both validators' cross-field checks |
| `AdminSettings.StoredPairNotEnabled` | adminlib.php:92-103 | validating each setting at its own write does not keep the stored pair enabled: an empty token accepted under `self`, followed by a switch to `cloud`, both validate, and the resulting configuration is disabled |

## Left out

- HTML output: `html_writer` markup is reduced to the container's id and text in `Embedded`.
- `$PAGE->requires`: the `js`, `js_init_code` and `js_init_call` registrations become the `library`, `jsModule` and `initParams` fields.
- `moodle_url` is not modelled: library URLs are the strings passed to it.
- Subtitle URLs are taken already rendered by `->out()`.
- `html_writer::random_id` is a parameter. That container ids are distinct across embeds on one page is the generator's property, not the plugin's, and is not modelled.
- `get_string`, `mimeinfo`, `get_name`, `get_config` and `is_readable` are parameters. A missing setting (`false`) is represented by `""`, which has the same truthiness and never equals `cloud` or `self`.
- The default sizes (player.php:28-42) can be overridden in Moodle's `config.php`. The model fixes them at 400, 400 and 30.
- `Player.Embed`: the width is an `int` and the height an `Option<int>`. A null width, or a numeric-string width or height under PHP's loose comparison, is not modelled.
- `Php.Lower`: only ASCII letters are folded; locale-dependent `strtolower` behaviour is not modelled.
- `Php.Extension`: PHP's multibyte handling in `basename` is not modelled. Bytes are treated one at a time.
- `Player.BuildTracks`: the subtitle mapping is a sequence of (label, url) pairs. PHP's uniqueness of array keys is not enforced.
- `AdminSettings.HostingMethodSetting.WriteSetting`: the parent `write_setting`'s own return value and storage are abstract. `Ok` stands for "handed on", recorded in `persisted`.
- The source URLs are `moodle_url` objects, and `urldecode` and `pathinfo` see them through string conversion. The model's `urls` strings stand for that conversion.
- A numeric-string subtitle label becomes an integer PHP array key, so that track's `label` is an int. The model keeps every label a string.
- On Windows, PHP's `basename` also splits on `\`. `Php.Basename` models the Unix behaviour, which splits on `/` only.
- The two validators run at separate writes, and the hosting-method check never reads the token. A stored pair can therefore end up disabled (`AdminSettings.StoredPairNotEnabled`). `AdminSettings.ValidatedConfigIsEnabled` speaks of one configuration, not of the stored settings.
- settings.php registration, renderer.php's factory and the browser-side module.js are outside the model.
