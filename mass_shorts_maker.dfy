/**
 * src/modules/mass_shorts_maker.py: the centre crop that turns a landscape
 * video into a 9:16 short, the loop that converts every video of src/videos
 * that has no short yet, and the two-question menu.
 *
 * The frame size cv2 reports is a whole number of pixels (0 x 0 for a file
 * it cannot open), so it is a pair of naturals here; the directory listing,
 * the files that exist and the frame size of each input are parameters.
 */
module MassShorts {
  import opened Common
  import opened Paths
  import opened CardSearch
  import MassVideos

  /** int(n / 2) on an integer: division truncating toward zero. */
  function TruncHalf(n: int): (q: int)
    ensures n >= 0 ==> 0 <= q && (2 * q == n || 2 * q == n - 1)
    ensures n < 0 ==> q <= 0 && (2 * q == n || 2 * q == n + 1)
  {
    if n >= 0 then n / 2 else -((-n) / 2)
  }

  /** What convert_to_short computes from the frame size before it runs ffmpeg. */
  datatype Crop = Crop(warn: bool, cropW: int, cropX: int)

  /**
   * width / height raises ZeroDivisionError on a zero height; otherwise the
   * aspect warning (the float comparison idealised as exact), crop_w =
   * int(height * 9 / 16) and crop_x = int((width - crop_w) / 2).
   */
  function CropGeometry(width: nat, height: nat): (r: Result<Crop>)
    ensures r.Failure? <==> height == 0
    ensures r.Failure? ==> r.error == ZeroDivisionError
  {
    if height == 0 then Failure(ZeroDivisionError)
    else
      var cropW := 9 * height / 16;
      Success(Crop(9 * width != 16 * height, cropW, TruncHalf(width - cropW)))
  }

  /** The crop width is the largest whole width with a 9:16 ratio to the height. */
  lemma CropWidthIsFloor(width: nat, height: nat)
    requires height > 0
    ensures var c := CropGeometry(width, height).value;
            0 <= c.cropW && 16 * c.cropW <= 9 * height < 16 * (c.cropW + 1)
  {
  }

  /** The warning is printed exactly for frames that are not 16:9. */
  lemma WarnsUnlessSixteenByNine(width: nat, height: nat)
    requires height > 0
    ensures CropGeometry(width, height).value.warn <==> 9 * width != 16 * height
  {
  }

  /**
   * When the frame is wide enough the crop lies inside it and is centred to
   * the pixel; a frame narrower than the crop gives a non-positive offset,
   * still centred.
   */
  lemma CropIsCentred(width: nat, height: nat)
    requires height > 0
    ensures var c := CropGeometry(width, height).value;
            (width >= c.cropW ==>
               0 <= c.cropX && c.cropX + c.cropW <= width &&
               (2 * c.cropX + c.cropW == width || 2 * c.cropX + c.cropW == width - 1)) &&
            (width < c.cropW ==>
               c.cropX <= 0 && (2 * c.cropX + c.cropW == width || 2 * c.cropX + c.cropW == width + 1))
  {
  }

  /** A 16:9 frame is always wide enough for its crop. */
  lemma SixteenByNineFits(width: nat, height: nat)
    requires height > 0 && 9 * width == 16 * height
    ensures var c := CropGeometry(width, height).value;
            !c.warn && 0 <= c.cropX && c.cropX + c.cropW <= width
  {
    var c := CropGeometry(width, height).value;
    assert 16 * c.cropW <= 9 * height;
    assert 81 * height <= 144 * height;
    assert 16 * 9 * c.cropW <= 16 * 9 * width;
  }

  /** A 1920 x 1080 video is cropped to 607 pixels wide, 656 from the left. */
  lemma FullHdCrop()
    ensures CropGeometry(1920, 1080) == Success(Crop(false, 607, 656))
  {
  }

  /** The ffmpeg command for a crop; the height prints as a float, e.g. "1080.0". */
  function CropCommand(inputPath: string, outputPath: string, height: nat, c: Crop): (cmd: seq<string>)
    ensures |cmd| == 12 && cmd[0] == "ffmpeg" && cmd[2] == inputPath && cmd[11] == outputPath
  {
    ["ffmpeg", "-i", inputPath,
     "-vf", "crop=" + IntToString(c.cropW) + ":" + NatToString(height) + ".0:" + IntToString(c.cropX) + ":0,scale=1080:1920",
     "-preset", "fast", "-c:v", "h264_nvenc", "-b:v", "5M", outputPath]
  }

  /** convert_to_short(input_path, output_path) on a video of the given frame size: the command it runs, or the error it raises. */
  function ConvertToShort(inputPath: string, outputPath: string, width: nat, height: nat): (r: Result<seq<string>>)
    ensures r.Failure? <==> height == 0
    ensures r.Success? ==> |r.value| == 12 && r.value[2] == inputPath && r.value[|r.value| - 1] == outputPath
  {
    match CropGeometry(width, height)
    case Failure(e) => Failure(e)
    case Success(c) => Success(CropCommand(inputPath, outputPath, height, c))
  }

  const VideoFolder: string := "src/videos"
  const ShortsFolder: string := "src/shorts"

  lemma Folders()
    ensures VideoFolder == Join("src", "videos") && ShortsFolder == Join("src", "shorts")
  {
  }

  /** A listed file process_videos converts: an .mp4 with no same-named file in the shorts folder. */
  predicate IsCandidate(filename: string, existing: set<string>)
  {
    EndsWith(filename, ".mp4") && Join(ShortsFolder, filename) !in existing
  }

  /** The listed files that get converted, in listing order. */
  function Candidates(listing: seq<string>, existing: set<string>): (c: seq<string>)
    ensures |c| <= |listing|
  {
    if listing == [] then []
    else
      var last := listing[|listing| - 1];
      Candidates(listing[..|listing| - 1], existing) + (if IsCandidate(last, existing) then [last] else [])
  }

  /** Exactly the .mp4 files without a short are converted. */
  lemma {:induction false} CandidatesMembers(listing: seq<string>, existing: set<string>, f: string)
    ensures f in Candidates(listing, existing) <==> f in listing && IsCandidate(f, existing)
  {
    if listing != [] {
      var init := listing[..|listing| - 1];
      CandidatesMembers(init, existing, f);
      assert listing == init + [listing[|listing| - 1]];
    }
  }

  /** Conversions follow the listing: a listing split in two is processed part by part. */
  lemma {:induction false} CandidatesAppend(a: seq<string>, b: seq<string>, existing: set<string>)
    ensures Candidates(a + b, existing) == Candidates(a, existing) + Candidates(b, existing)
    decreases |b|
  {
    if b == [] {
      assert a + b == a;
    } else {
      var binit := b[..|b| - 1];
      assert (a + b)[..|a + b| - 1] == a + binit;
      CandidatesAppend(a, binit, existing);
    }
  }

  /** What process_videos does with one candidate: convert src/videos/<f> to src/shorts/<f>. */
  function Conversion(filename: string, dims: string -> (nat, nat)): Result<seq<string>>
  {
    var input := Join(VideoFolder, filename);
    ConvertToShort(input, Join(ShortsFolder, filename), dims(input).0, dims(input).1)
  }

  /**
   * process_videos on a listing of src/videos, the paths that exist and the
   * frame size cv2 reports for each input: one ffmpeg command per
   * candidate, in order, until a conversion raises.
   */
  method ProcessVideos(listing: seq<string>, existing: set<string>, dims: string -> (nat, nat))
      returns (commands: seq<seq<string>>, err: Option<Exception>)
    ensures var c := Candidates(listing, existing);
            |commands| <= |c| &&
            (forall k :: 0 <= k < |commands| ==> Conversion(c[k], dims) == Success(commands[k])) &&
            (err.None? <==> |commands| == |c|) &&
            (err.Some? ==> Conversion(c[|commands|], dims) == Failure(err.value))
  {
    commands := [];
    err := None;
    for i := 0 to |listing|
      invariant var c := Candidates(listing[..i], existing);
                |commands| == |c| && forall k :: 0 <= k < |c| ==> Conversion(c[k], dims) == Success(commands[k])
    {
      var filename := listing[i];
      assert listing[..i + 1][..i] == listing[..i];
      if EndsWith(filename, ".mp4") {
        var inputPath := Join(VideoFolder, filename);
        var shortOutputPath := Join(ShortsFolder, filename);
        if shortOutputPath in existing {
          continue;
        }
        var size := dims(inputPath);
        var r := ConvertToShort(inputPath, shortOutputPath, size.0, size.1);
        if r.Failure? {
          assert listing == listing[..i + 1] + listing[i + 1..];
          CandidatesAppend(listing[..i + 1], listing[i + 1..], existing);
          err := Some(r.error);
          return;
        }
        commands := commands + [r.value];
      }
    }
    assert listing[..|listing|] == listing;
  }

  /** The branch the __main__ block takes on its two answers. */
  datatype MenuAction = CreateThenProcess | ProcessOnly | NoAction

  function Menu(first: string, second: string): (a: MenuAction)
    ensures a == CreateThenProcess <==> first == "y"
    ensures a == ProcessOnly <==> first != "y" && second == "y"
    ensures a == NoAction <==> first != "y" && second != "y"
  {
    if first == "y" then CreateThenProcess
    else if second == "y" then ProcessOnly
    else NoAction
  }

  /** create_videos raises: the answer has cards, one of them without an image entry. */
  predicate CreationRaises(response: Response)
  {
    response.data.Some? && MassVideos.FirstImageless(response.data.value) < |response.data.value|
  }

  /** The run reaches process_videos: "y" to the first question and creation succeeded, or "y" to the second. */
  predicate ReachesProcessing(first: string, second: string, response: Response)
  {
    match Menu(first, second)
    case CreateThenProcess => !CreationRaises(response)
    case ProcessOnly => true
    case NoAction => false
  }

  /**
   * A run of the script: create_shorts (that is, create_videos) and then
   * process_videos, or process_videos alone, or nothing. `listing` is the
   * video folder as process_videos finds it. An exception in create_videos
   * ends the run before any processing.
   */
  method RunMenu(first: string, second: string, query: MassVideos.Dict, response: Response,
                 listing: seq<string>, existing: set<string>, dims: string -> (nat, nat))
      returns (videos: seq<MassVideos.VideoRequest>, commands: seq<seq<string>>, err: Option<Exception>)
    ensures first != "y" || response.data.None? ==> videos == []
    ensures first == "y" && response.data.Some? ==>
              var data := response.data.value;
              var k := MassVideos.FirstImageless(data);
              |videos| == k && forall i :: 0 <= i < k ==> videos[i] == MassVideos.RequestFor(data[i])
    ensures var c := Candidates(listing, existing);
            |commands| <= |c| &&
            forall k :: 0 <= k < |commands| ==> Conversion(c[k], dims) == Success(commands[k])
    ensures ReachesProcessing(first, second, response) ==>
              var c := Candidates(listing, existing);
              (err.None? <==> |commands| == |c|) &&
              (err.Some? ==> Conversion(c[|commands|], dims) == Failure(err.value))
    ensures !ReachesProcessing(first, second, response) ==>
              commands == [] && err == (if first == "y" then Some(IndexError) else None)
  {
    videos, commands, err := [], [], None;
    match Menu(first, second)
    case CreateThenProcess =>
      var apiUrl;
      apiUrl, videos, err := MassVideos.CreateVideos(query, response);
      if err.None? {
        commands, err := ProcessVideos(listing, existing, dims);
      }
    case ProcessOnly =>
      commands, err := ProcessVideos(listing, existing, dims);
    case NoAction =>
  }
}
