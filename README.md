# Yu-Gi-Oh video creator: a Dafny model of its deterministic core

The Yu-Gi-Oh video creator is a set of Python scripts. They fetch a card from the YGOPRODeck
database, have a chat model write a short narration, have ElevenLabs speak it, and render a
video: the card flips in and then zooms over a background. A second set of scripts makes videos for
every card of a database search, and crops finished videos to 9:16 "shorts" with ffmpeg.

This project models the decisions and arithmetic under those calls and proves properties of
them. The network, the renderer, the terminal and the filesystem are parameters or are left out.

| file | module | what it models |
|---|---|---|
| `common.dfy` | `Common` | `Option`, `Result`, the Python exceptions raised, `str.upper`, `str.endswith`, `str()` of integers, f-string rendering of `None` |
| `paths.dfy` | `Paths` | `posixpath` `join`, `dirname`, `basename`, `splitext` with `/` as the separator |
| `frame_animator.dfy` | `FrameAnimator` | the `flip_and_grow` frame transform of `create_video` |
| `card_search.dfy` | `CardSearch` | `get_card`, the selection rule shared by both card classes |
| `video_maker.dfy` | `VideoMaker` | the `YugiohVideoMaker` class: voice table, narration and music paths, the reuse gate of `create_video` |
| `assets_generator.dfy` | `Assets` | the `AssetsGenerator` class: loading details, the prompt, the script precondition, the audio file name |
| `mass_video_maker.dfy` | `MassVideos` | `strip_ygoprodeck_url` on the parsed query (dict-comprehension semantics), the API URL, the `create_videos` loop |
| `mass_shorts_maker.dfy` | `MassShorts` | the crop geometry of `convert_to_short`, the `process_videos` loop, the menu |
| `crop_to_short.dfy` | `ShortCrop` | the output name of `crop_to_short.py`, its argument check and its success result |

Some conventions run through the model:
- A JSON body is a `Response`: its optional `"data"` list, plus how many other top-level keys it has. `len(response)` is then `KeyCount`.
- An attribute that `AssetsGenerator.__init__` never assigns (`card_name`, `card_type`) is `None` until first set; reading it early raises `AttributeError`.
- `|cos|` is a function parameter, and its `[0, 1]` bound is stated by `IsAbsCosine` where a lemma needs it.
- Frame arithmetic is exact `real` arithmetic, with `int()` as truncation toward zero.
- The answers typed at `input()` prompts are string parameters.

Where the code and its documentation disagree, the model follows the code:
- There is no guard on `T_flip`. A zero `flip_duration_ratio` or a zero duration makes `t / T_flip` raise `ZeroDivisionError` at `t = 0`; the model returns that error (`ZeroFlipRaisesAtStart`).
- Nothing runs in parallel: each loop is sequential.
- There is no file-name sanitiser: a card name with a `/` changes the paths. The path lemmas state their results for names without one.

## Model

| member | source | states |
|---|---|---|
| `Common.Upper` | src/modules/yugioh_video_maker.py:99 | upper-casing keeps the length and maps each character separately |
| `Common.IntToString` | src/modules/yugioh_video_maker.py:185 | `str()` of an int is non-empty and contains neither `.` nor `/` |
| `Paths.Basename` | src/utils/crop_to_short.py:44 | the basename has no separator and is a suffix of the path |
| `Paths.Dirname` | src/utils/crop_to_short.py:43 | the dirname is empty, all separators, or ends in a non-separator |
| `Paths.SplitExt` | src/utils/crop_to_short.py:45 | root + ext is the name; an extension starts with its only dot and holds no separator |
| `Paths.BasenameOfJoin` | src/utils/crop_to_short.py:46 | the basename of `join(d, x)` is `x` when `x` has no separator |
| `Paths.DirnameOfJoin` | src/utils/crop_to_short.py:43-46 | joining a name onto `dirname(p)` and taking the dirname gives `dirname(p)` back |
| `Paths.DirnameOfJoinStripped` | src/modules/yugioh_video_maker.py:150 | the dirname of `join(d, x)` is `d` for a directory without trailing separator |
| `FrameAnimator.MakeTimeline` | src/modules/yugioh_video_maker.py:197-198 | the timeline carries create_video's arguments; `T_flip` is zero exactly when the ratio or the duration is |
| `FrameAnimator.FlipDurationBounds` | src/modules/yugioh_video_maker.py:198 | for a ratio in (0, 1) and a positive duration, `0 < T_flip < T` |
| `FrameAnimator.DefaultTimeline` | src/modules/yugioh_video_maker.py:160-162 | the default arguments: axis x, 90 to 0 degrees, scale 0.4 to 0.7, `T_flip = 0.03 T` |
| `FrameAnimator.TruncTowardZero` | src/modules/yugioh_video_maker.py:228-229 | `int()` rounds down non-negative values and up negative ones |
| `FrameAnimator.PixelSize` | src/modules/yugioh_video_maker.py:228-229 | `max(int(x), 1)` is at least one pixel |
| `FrameAnimator.PixelSizeBounds` | src/modules/yugioh_video_maker.py:246-247 | a size of at least 1 keeps its whole pixels; a smaller one becomes 1 |
| `FrameAnimator.PixelSizeMonotone` | src/modules/yugioh_video_maker.py:246-247 | a larger real size never gives fewer pixels |
| `FrameAnimator.ScaledMonotone` | src/modules/yugioh_video_maker.py:246-247 | a larger factor never gives a smaller resized dimension |
| `FrameAnimator.ForeshorteningByAxis` | src/modules/yugioh_video_maker.py:206-224 | "x" scales only the height by the cosine, "z" nothing, "y" and every other axis only the width |
| `FrameAnimator.ZoomFractionInUnit` | src/modules/yugioh_video_maker.py:244 | the zoom fraction is in (0, 1] during the zoom phase, and 1 at `t = T` or when the phase has no length |
| `FrameAnimator.FlipAndGrow` | src/modules/yugioh_video_maker.py:200-248 | raises exactly when `t <= T_flip = 0`; otherwise both sizes are at least 1, and a rotation is present exactly for axis "z" in the flip phase, about the centre of the resized frame |
| `FrameAnimator.FlipAngleEndpoints` | src/modules/yugioh_video_maker.py:204-205 | the angle is rotation_start at `t = 0` and rotation_end at `t = T_flip` |
| `FrameAnimator.FlipAngleBetween` | src/modules/yugioh_video_maker.py:204-205 | during the flip the angle stays between rotation_start and rotation_end |
| `FrameAnimator.FlipPhaseIgnoresEndScale` | src/modules/yugioh_video_maker.py:202-239 | a flip-phase frame depends only on T_flip, the axis, the rotation endpoints and start_scale, not on end_scale or T |
| `FrameAnimator.MagnificationContinuousAtFlipEnd` | src/modules/yugioh_video_maker.py:244-245 | the zoom starts from start_scale where the flip leaves off, and grows linearly after it |
| `FrameAnimator.ZoomFactorBetween` | src/modules/yugioh_video_maker.py:244-245 | for `T_flip < t <= T` the zoom factor lies between start_scale and end_scale |
| `FrameAnimator.ZoomEndsAtEndScale` | src/modules/yugioh_video_maker.py:244-245 | the zoom factor is end_scale at `t = T`, and everywhere when `T - T_flip <= 0` |
| `FrameAnimator.ZoomMonotone` | src/modules/yugioh_video_maker.py:244-245 | with start_scale <= end_scale the zoom factor never decreases in t |
| `FrameAnimator.FlipAboutX` | src/modules/yugioh_video_maker.py:211-229 | axis "x": full width and foreshortened height at magnification start_scale, no rotation |
| `FrameAnimator.FlipAboutZ` | src/modules/yugioh_video_maker.py:216-237 | axis "z": the frame at magnification start_scale, rotated by the angle about `(w // 2, h // 2)` |
| `FrameAnimator.FlipAboutY` | src/modules/yugioh_video_maker.py:206-229 | axis "y" or any other: foreshortened width and full height at magnification start_scale |
| `FrameAnimator.RotationEndpoints` | src/modules/yugioh_video_maker.py:234-235 | axis "z" rotates by rotation_start at `t = 0` and rotation_end at `t = T_flip` |
| `FrameAnimator.ForeshortenedSize` | src/modules/yugioh_video_maker.py:228-229 | foreshortening by a factor in [0, 1] never gives more pixels |
| `FrameAnimator.FlipPhaseNeverEnlarges` | src/modules/yugioh_video_maker.py:206-229 | during the flip neither dimension exceeds the start-scaled frame |
| `FrameAnimator.FlipAboutXNeverEnlarges` | src/modules/yugioh_video_maker.py:211-215 | axis "x": the width is the start-scaled width and the height at most the start-scaled height |
| `FrameAnimator.FlipAboutYNeverEnlarges` | src/modules/yugioh_video_maker.py:206-210 | axis "y": the height is the start-scaled height and the width at most the start-scaled width |
| `FrameAnimator.ZoomPhaseFrame` | src/modules/yugioh_video_maker.py:241-248 | after the flip the frame is the whole image scaled by the zoom factor, not rotated |
| `FrameAnimator.ZoomPhaseSizeBetween` | src/modules/yugioh_video_maker.py:244-248 | zoom-phase sizes lie between the start-scaled and the end-scaled sizes |
| `FrameAnimator.ZoomPhaseGrows` | src/modules/yugioh_video_maker.py:246-248 | with start_scale <= end_scale a later zoom frame is never smaller |
| `FrameAnimator.ZeroFlipRaisesAtStart` | src/modules/yugioh_video_maker.py:198-204 | with a zero ratio a frame raises ZeroDivisionError exactly when `t <= 0` |
| `FrameAnimator.DefaultRevealSizes` | src/modules/yugioh_video_maker.py:197-248 | with the defaults the card starts one pixel high, is 0.4 of the frame when the flip ends, and 0.7 at the end |
| `CardSearch.RequestUrl` | src/modules/yugioh_video_maker.py:86-91 | no name fetches the random card; a name is appended to the cardinfo `fname=` query |
| `CardSearch.ScanFrom` | src/modules/yugioh_video_maker.py:98-100 | a found index is in range and below the bound, and its name matches |
| `CardSearch.ScanFromCharacterized` | src/modules/yugioh_video_maker.py:98-100 | the loop finds the first match below the bound; ends without one iff none is in range; overruns the list iff the bound is past its end with no match before it |
| `CardSearch.GetCard` | src/modules/yugioh_video_maker.py:84-109 | the loop returns what `SelectedWithin` specifies for its bound: `Selected` for `len(response)`, `SelectedCorrected` for the list length |
| `CardSearch.MissingDataRaises` | src/modules/yugioh_video_maker.py:86-94 | no `"data"` raises KeyError; the random branch raises IndexError on an empty list and returns the first record otherwise |
| `CardSearch.EmptyResultsGiveSentinel` | src/modules/assets_generator.py:67-69 | an empty result list gives the sentinel -1, whatever the answer |
| `CardSearch.FirstMatchIsChosen` | src/modules/assets_generator.py:71-73 | the first case-insensitive match within the first `len(response)` entries is returned |
| `CardSearch.FirstMatchFrom` | src/modules/yugioh_video_maker.py:98-100 | the loop from index i stops at the first match from i on |
| `CardSearch.NoMatchAsksUser` | src/modules/assets_generator.py:75-82 | with no match in range, the first record is returned iff the answer is exactly "y", otherwise None |
| `CardSearch.ShortListOverruns` | src/modules/yugioh_video_maker.py:98-99 | when `len(response)` exceeds the list and nothing matches, the lookup raises IndexError |
| `CardSearch.NamedOutcomes` | src/modules/yugioh_video_maker.py:90-109 | every named outcome is the sentinel (iff the list is empty), IndexError past the list, None only for an answer other than "y", or a record of the list |
| `CardSearch.SingleKeySearchesFirstOnly` | src/modules/yugioh_video_maker.py:98 | a body with only `"data"` is searched at index 0 only |
| `CardSearch.MissedExactMatch` | src/modules/yugioh_video_maker.py:98-100 | as written, "Dark Magician" in [Dark Magician Girl, Dark Magician] is missed and "n" gives None |
| `CardSearch.CorrectedFindsMissedMatch` | src/modules/yugioh_video_maker.py:98-100 | searching the whole list finds Dark Magician |
| `CardSearch.CorrectedFindsFirstMatch` | src/modules/assets_generator.py:71-82 | searching the whole list never raises, returns the first match when there is one, and otherwise the first record iff "y" |
| `VideoMaker.ResolveVoiceId` | src/modules/yugioh_video_maker.py:30-37 | a known voice name gives its table entry, an unknown one the PRESTIGED entry |
| `VideoMaker.EveryNameResolvesToPrestiged` | src/modules/yugioh_video_maker.py:30-37 | with the one-entry table every name resolves to the PRESTIGED voice |
| `VideoMaker.TrackChoice` | src/modules/yugioh_video_maker.py:183-188 | the configured bg_audio wins; without one the random draw is used |
| `VideoMaker.AudioPathLayout` | src/modules/yugioh_video_maker.py:164 | the narration is `<name>.mp3` in `src/audio` |
| `VideoMaker.BackgroundTrackLayout` | src/modules/yugioh_video_maker.py:183-188 | the music is `<choice>.mp3` in `src/assets/music` |
| `VideoMaker.RandomTrackIsOneOfFive` | src/modules/yugioh_video_maker.py:184-185 | a draw of 1..5 picks one of the five shipped tracks |
| `VideoMaker.TrackFileName` | src/modules/yugioh_video_maker.py:185 | track numbers 1..5 name the files 1.mp3 .. 5.mp3 |
| `VideoMaker.VideoPathLayout` | src/modules/yugioh_video_maker.py:262 | the video is `<name>.mp4` under `./src/videos/` |
| `VideoMaker.YugiohVideoMaker.constructor` | src/modules/yugioh_video_maker.py:19-37 | the given details are stored, prompt, script and audio are None, and the voice is resolved |
| `VideoMaker.YugiohVideoMaker.GetAudio` | src/modules/yugioh_video_maker.py:150-158 | the narration path becomes self.audio and is returned; nothing else changes |
| `VideoMaker.YugiohVideoMaker.CreateVideo` | src/modules/yugioh_video_maker.py:164-198 | existing audio and an answer other than "y" returns -1 before rendering; otherwise it renders with the existing or newly generated narration, the chosen track and the timeline; audio is set only when generated |
| `Assets.PromptEmbedsDetails` | src/modules/assets_generator.py:53 | the prompt is the fixed instructions, then the name, the readable type and the effect, each after its label |
| `Assets.PromptDeterminesEffect` | src/modules/assets_generator.py:53 | for a fixed name and type, different effects give different prompts |
| `Assets.AudioFileName` | src/modules/assets_generator.py:118 | the file is the card name followed by `.mp3` |
| `Assets.AudioFileNameInjective` | src/modules/assets_generator.py:118 | different cards get different narration files |
| `Assets.AssetsGenerator.constructor` | src/modules/assets_generator.py:11-15 | every detail, the prompt and the script start unset, and the invariant holds |
| `Assets.AssetsGenerator.LoadCardDetails` | src/modules/assets_generator.py:42-53 | for get_card's outcome with a given loop bound: None returns with nothing changed, the sentinel raises TypeError, a lookup error propagates, and a chosen record sets the four fields and the prompt; the invariant is kept |
| `Assets.AssetsGenerator.GetCardScript` | src/modules/assets_generator.py:85-99 | an unassigned name raises AttributeError and a None detail raises before any call; otherwise the reply becomes the script |
| `Assets.AssetsGenerator.TextToSpeech` | src/modules/assets_generator.py:106-118 | the output file is `<card_name>.mp3`, or AttributeError when no card was loaded |
| `Assets.LoadThenScript` | src/modules/assets_generator.py:127-128 | the script is obtained iff get_card chooses a card; a declined fallback makes get_card_script raise AttributeError; a load error ends the run first |
| `MassVideos.PutFacts` | src/modules/mass_video_maker.py:14-15 | inserting into a dict keeps every other key in place with its value and stores the new value at the key's old position or at the end |
| `MassVideos.BuildFacts` | src/modules/mass_video_maker.py:14-15 | a comprehension's dict has exactly the items' keys, each with the value of its last item |
| `MassVideos.BuildOrder` | src/modules/mass_video_maker.py:14-15 | the keys of a comprehension's dict are in the order of their first items |
| `MassVideos.BuildOfUnique` | src/modules/mass_video_maker.py:14 | items with distinct keys build themselves unchanged |
| `MassVideos.KeepWantedKeys` | src/modules/mass_video_maker.py:13-14 | the filter keeps exactly the keys that are not num or offset |
| `MassVideos.KeepWantedOrder` | src/modules/mass_video_maker.py:14 | the kept keys keep their relative order |
| `MassVideos.FilterIsKeepWanted` | src/modules/mass_video_maker.py:14 | the first comprehension is the plain order-preserving filter |
| `MassVideos.RenamedOther` | src/modules/mass_video_maker.py:15 | renaming leaves every key other than name and fname at its positions |
| `MassVideos.RenamedFnameKeys` | src/modules/mass_video_maker.py:15 | after renaming there is no name key, and fname is there iff name or fname was |
| `MassVideos.StripRemovesParams` | src/modules/mass_video_maker.py:13-15 | the stripped query has no num, offset or name key |
| `MassVideos.StripKeepsOtherParams` | src/modules/mass_video_maker.py:14-15 | every other key is present iff it was, with the same values |
| `MassVideos.StripKeepsOrder` | src/modules/mass_video_maker.py:14-15 | the other keys keep their relative order |
| `MassVideos.StripHasFname` | src/modules/mass_video_maker.py:15 | fname is present iff the link had name or fname |
| `MassVideos.StripRenamesName` | src/modules/mass_video_maker.py:15 | with only one of name and fname, its values appear under fname |
| `MassVideos.StripMergesNames` | src/modules/mass_video_maker.py:15 | with both, fname carries the values of the later one |
| `MassVideos.StripFnamePosition` | src/modules/mass_video_maker.py:15 | with both, fname stands where the earlier one stood |
| `MassVideos.StripIdempotent` | src/modules/mass_video_maker.py:14-15 | stripping twice equals stripping once |
| `MassVideos.ApiUrl` | src/modules/mass_video_maker.py:24-25 | the API URL is the fixed prefix followed by the encoded stripped query |
| `MassVideos.FirstImageless` | src/modules/mass_video_maker.py:39 | the index of the first card without an image, every card before it having one |
| `MassVideos.CreateVideos` | src/modules/mass_video_maker.py:21-52 | no `"data"` requests nothing; otherwise one request per card, in order, up to the first card without an image, which raises IndexError |
| `MassVideos.OneRequestPerCard` | src/modules/mass_video_maker.py:31-49 | when every card has an image, every card gets a video |
| `MassShorts.TruncHalf` | src/modules/mass_shorts_maker.py:21 | `int(n / 2)` halves toward zero: `2q` is `n` or one closer to zero |
| `MassShorts.CropGeometry` | src/modules/mass_shorts_maker.py:16-21 | a zero height raises ZeroDivisionError, and any other height gives a crop |
| `MassShorts.CropWidthIsFloor` | src/modules/mass_shorts_maker.py:20 | `crop_w = floor(9 h / 16)` |
| `MassShorts.WarnsUnlessSixteenByNine` | src/modules/mass_shorts_maker.py:16-17 | the warning is raised exactly when `9 w != 16 h` |
| `MassShorts.CropIsCentred` | src/modules/mass_shorts_maker.py:20-21 | a wide enough frame holds the crop and `2 crop_x + crop_w` is `w` or `w - 1`; a narrower frame gives `crop_x <= 0` |
| `MassShorts.SixteenByNineFits` | src/modules/mass_shorts_maker.py:16-21 | a 16:9 frame gets no warning and always holds its crop |
| `MassShorts.FullHdCrop` | src/modules/mass_shorts_maker.py:16-21 | 1920 x 1080 gives no warning and the crop 607 wide at x = 656 |
| `MassShorts.CropCommand` | src/modules/mass_shorts_maker.py:24-32 | the command runs ffmpeg with the input after `-i` and the output last |
| `MassShorts.ConvertToShort` | src/modules/mass_shorts_maker.py:6-35 | a zero height raises, and otherwise the ffmpeg command reads the input and writes the output |
| `MassShorts.Folders` | src/modules/mass_shorts_maker.py:41-43 | the folders are `src/videos` and `src/shorts` |
| `MassShorts.Candidates` | src/modules/mass_shorts_maker.py:48-56 | no more conversions than listed files |
| `MassShorts.CandidatesMembers` | src/modules/mass_shorts_maker.py:48-56 | a file is converted iff it is listed, ends in `.mp4` and has no same-named short |
| `MassShorts.CandidatesAppend` | src/modules/mass_shorts_maker.py:48-61 | conversions follow the listing order |
| `MassShorts.ProcessVideos` | src/modules/mass_shorts_maker.py:38-61 | one command per candidate, in listing order, from `src/videos/<f>` to `src/shorts/<f>`; it stops at the first conversion that raises |
| `MassShorts.Menu` | src/modules/mass_shorts_maker.py:70-80 | a first "y" creates then processes; otherwise a second "y" processes only; anything else does nothing |
| `MassShorts.RunMenu` | src/modules/mass_shorts_maker.py:63-80 | videos are the requests for the cards up to the first without an image, and only after a first "y"; the commands are the conversions of the candidates in order; processing runs after either "y" unless creation raised, and stops at the first failing conversion |
| `ShortCrop.ShortName` | src/utils/crop_to_short.py:44-46 | the output name has no separator |
| `ShortCrop.ShortOutputBasename` | src/utils/crop_to_short.py:43-46 | the output's basename is the stem, then `_short`, then the extension |
| `ShortCrop.ShortOutputStaysInDirectory` | src/utils/crop_to_short.py:43-46 | the output is in the input's directory |
| `ShortCrop.ShortOutputKeepsExtension` | src/utils/crop_to_short.py:45-46 | the output keeps the input's extension |
| `ShortCrop.StemSuffixKeepsExtension` | src/utils/crop_to_short.py:45-46 | `splitext(stem + "_short" + ext)` gives back `stem + "_short"` and `ext` |
| `ShortCrop.NoExtensionStaysNone` | src/utils/crop_to_short.py:45-46 | a name without an extension gets none from the suffix |
| `ShortCrop.ExtensionMovesPastSuffix` | src/utils/crop_to_short.py:45-46 | inserting the suffix before an extension keeps that extension |
| `ShortCrop.SplitExtLeadingDots` | src/utils/crop_to_short.py:45 | leading dots start no extension: `.mp4` and `..mp4` have none |
| `ShortCrop.SplitExtLastDot` | src/utils/crop_to_short.py:45 | the extension starts at the last dot: `a..mp4` splits into `a.` and `.mp4` |
| `ShortCrop.SplitExtNoDot` | src/utils/crop_to_short.py:45 | a name without a dot has no extension |
| `ShortCrop.ShortOutputNeverOverwritesInput` | src/utils/crop_to_short.py:17-46 | the output basename and path differ from the input's |
| `ShortCrop.FfmpegCommand` | src/utils/crop_to_short.py:10-19 | 13 arguments: the input after `-i`, `-y`, then the output last |
| `ShortCrop.ConvertToShort` | src/utils/crop_to_short.py:25-35 | True iff ffmpeg completed with return code 0; an exception gives False |
| `ShortCrop.CommandLine` | src/utils/crop_to_short.py:37-46 | any argument count other than one exits with status 1; one path is converted to its short path |
| `ShortCrop.CommandLineNeverOverwritesInput` | src/utils/crop_to_short.py:17-46 | the ffmpeg command never names its input as its output, even with `-y` |

## Left out

- Network calls: the two YGOPRODeck endpoints, the OpenAI chat completion and ElevenLabs speech. A fetched body is a `Response` parameter and the chat model's reply is a string parameter.
- Rendering and encoding: moviepy clips, the `cv2` resize, warp and rotation matrix, the ffmpeg and NVENC runs. A frame is its size and rotation (`FrameResult`), and an ffmpeg run is its argument list or a `RunResult`.
- `input()` and `print`: answers are parameters, and messages are not modelled.
- Filesystem effects (`os.makedirs`, file writes, `os.listdir`, `os.path.exists`): existence is a set of paths and a listing is a sequence. A directory listing has distinct names, so `ProcessVideos` keeps the set of existing shorts fixed.
- `random.randint(1, 5)` is a parameter (`roll`).
- IEEE-754 floating point: frame arithmetic is exact, `math.cos` of the radians is an abstract `absCos`, and float division in the aspect check is exact.
- `str()` of a float is written digits + `.0`. This is exact for whole-number frame heights below 10^16.
- `Common.Upper`: does not model the Unicode case table; it maps ASCII letters only.
- `urllib` parsing and encoding: `urlparse` and `parse_qs` (including the blank values it drops) are not modelled, and `StripQuery` takes the parsed query. `Encode` writes `name=value` pairs without percent-encoding or `+` for spaces.
- Windows paths (`'src\modules\secrets.json'`, the ffmpeg path in crop_to_short.py) and reading `secrets.json`. Paths use `/`.
- The image set that create_videos passes as `card_img` (`card["card_images"][0]`, a dictionary) is represented by its image URL in `MassVideos.RequestFor`.
- `YugiohVideoMaker.load_card_details` (yugioh_video_maker.py:58-82):
  - its reuse branch rebuilds the prompt and asks the chat model again;
  - its tail downloads the card image;
  - the card it picks is `CardSearch.Selected`.
- The constructors' calls to `load_card_details`. `AssetsGenerator.LoadCardDetails` and the `YugiohVideoMaker` constructor are modelled separately, and `Assets.LoadThenScript` chains the load with the script request.
- `YugiohVideoMaker.get_script` (yugioh_video_maker.py:112-127) mirrors `AssetsGenerator.get_card_script`, which is modelled.
- `create_video` after the timeline: clip composition and `write_videofile`. `CreateVideo` returns what it would render. `create_videos` builds one `VideoRequest` per card instead of calling `create_video`.
- The module-level driver of assets_generator.py (lines 127-129) is modelled only through `LoadThenScript` and `TextToSpeech`.
- src/modules/chatts.py is not part of this model.
- `FrameAnimator.FlipPhaseNeverEnlarges`: assumes `|cos|` lies in [0, 1] (`IsAbsCosine`), since `math.cos` is not modelled.

## Findings

| source | as written | input that shows it | evidently intended | confidence | as-written member | corrected member |
|---|---|---|---|---|---|---|
| src/modules/yugioh_video_maker.py:98 | the search loop runs over `range(len(response))`, the number of top-level keys of the JSON body | body `{"data": [Dark Magician Girl, Dark Magician]}`, name "Dark Magician", answer "n": index 1 is never compared, and None is returned | loop over `range(len(response["data"]))` | not executed | `CardSearch.MissedExactMatch` | `CardSearch.CorrectedFindsMissedMatch` |
| src/modules/assets_generator.py:71 | the same loop over `range(len(response))`. With more top-level keys than records and no match, it indexes past the list | a body with two top-level keys whose "data" holds one record that does not match: index 1 raises IndexError | loop over `range(len(response["data"]))` | not executed | `CardSearch.ShortListOverruns` | `CardSearch.CorrectedFindsFirstMatch` |

`CardSearch.Selected` is the search as written and `CardSearch.SelectedCorrected` searches the whole list. `CardSearch.GetCard`, `Assets.AssetsGenerator.LoadCardDetails` and `Assets.LoadThenScript` take the loop bound as a parameter, so their contracts cover both: `KeyCount(response)` gives the code as written, and the list length gives the corrected search.
