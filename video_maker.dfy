/**
 * The YugiohVideoMaker class of src/modules/yugioh_video_maker.py: the voice
 * table and its fallback, the narration and music paths, and the decision
 * create_video takes before it renders (reuse the narration, generate it, or
 * stop). The files that exist, the answers typed, the narration's duration
 * and the random track number are parameters.
 */
module VideoMaker {
  import opened Common
  import opened Paths
  import FrameAnimator

  const PrestigedVoice: string := "ijEuPMqoI2gEEA41kGv3"

  /** self.voice_ids */
  const VoiceIds: map<string, string> := map["PRESTIGED" := PrestigedVoice]

  /** The voice id for a requested voice name: its table entry, or the PRESTIGED entry for an unknown name. */
  function ResolveVoiceId(voiceName: string): (id: string)
    ensures voiceName in VoiceIds ==> id == VoiceIds[voiceName]
    ensures voiceName !in VoiceIds ==> id == VoiceIds["PRESTIGED"]
    ensures id in VoiceIds.Values
  {
    if voiceName !in VoiceIds then VoiceIds["PRESTIGED"] else VoiceIds[voiceName]
  }

  /** The table has a single entry, so every requested name resolves to the PRESTIGED voice. */
  lemma EveryNameResolvesToPrestiged(voiceName: string)
    ensures ResolveVoiceId(voiceName) == PrestigedVoice
  {
  }

  /** os.path.join('src', 'audio', f"{card_name}.mp3") */
  function AudioPath(cardName: Option<string>): string
  {
    Join(Join("src", "audio"), Format(cardName) + ".mp3")
  }

  /** os.path.join('src', 'assets', 'music', f"{choice}.mp3") */
  function MusicPath(choice: int): string
  {
    Join(Join(Join("src", "assets"), "music"), IntToString(choice) + ".mp3")
  }

  /** f"./src/videos/{card_name}.mp4" */
  function VideoPath(cardName: Option<string>): string
  {
    "./src/videos/" + Format(cardName) + ".mp4"
  }

  /** The track number: the one configured in bg_audio, else the random draw. */
  function TrackChoice(bgAudio: Option<int>, roll: int): (choice: int)
    ensures bgAudio.Some? ==> choice == bgAudio.value
    ensures bgAudio.None? ==> choice == roll
  {
    match bgAudio
    case None => roll
    case Some(n) => n
  }

  /** The background music file for a roll of random.randint(1, 5). */
  function BackgroundTrack(bgAudio: Option<int>, roll: int): string
  {
    MusicPath(TrackChoice(bgAudio, roll))
  }

  /** The narration is src/audio/<name>.mp3 for a card name without a separator. */
  lemma AudioPathLayout(cardName: Option<string>)
    requires Sep !in Format(cardName)
    ensures Dirname(AudioPath(cardName)) == "src/audio"
    ensures Basename(AudioPath(cardName)) == Format(cardName) + ".mp3"
  {
    var name := Format(cardName) + ".mp3";
    assert Join("src", "audio") == "src/audio";
    BasenameOfJoin("src/audio", name);
    assert !AllSep("src/audio") by { assert "src/audio"[0] != Sep; }
    DirnameOfJoinStripped("src/audio", name);
  }

  /** The music file is src/assets/music/<choice>.mp3, named after the chosen track. */
  lemma BackgroundTrackLayout(bgAudio: Option<int>, roll: int)
    ensures Dirname(BackgroundTrack(bgAudio, roll)) == "src/assets/music"
    ensures Basename(BackgroundTrack(bgAudio, roll)) == IntToString(TrackChoice(bgAudio, roll)) + ".mp3"
  {
    var dir := "src/assets/music";
    var name := IntToString(TrackChoice(bgAudio, roll)) + ".mp3";
    assert Join(Join("src", "assets"), "music") == dir;
    assert Sep !in name;
    BasenameOfJoin(dir, name);
    assert !AllSep(dir) by { assert dir[0] != Sep; }
    DirnameOfJoinStripped(dir, name);
  }

  /** Without bg_audio the track is one of the five shipped ones. */
  lemma RandomTrackIsOneOfFive(roll: int)
    requires 1 <= roll <= 5
    ensures Basename(BackgroundTrack(None, roll)) in TrackFiles
  {
    BackgroundTrackLayout(None, roll);
    TrackFileName(roll);
  }

  const TrackFiles: set<string> := {"1.mp3", "2.mp3", "3.mp3", "4.mp3", "5.mp3"}

  lemma TrackFileName(choice: int)
    requires 1 <= choice <= 5
    ensures IntToString(choice) + ".mp3" in TrackFiles
  {
    assert IntToString(choice) == [Digit(choice)];
    var name := IntToString(choice) + ".mp3";
    if choice == 1 { assert name == "1.mp3"; }
    else if choice == 2 { assert name == "2.mp3"; }
    else if choice == 3 { assert name == "3.mp3"; }
    else if choice == 4 { assert name == "4.mp3"; }
    else { assert name == "5.mp3"; }
  }

  /** The video is written to ./src/videos/<name>.mp4 for a card name without a separator. */
  lemma VideoPathLayout(cardName: Option<string>)
    requires Sep !in Format(cardName)
    ensures Basename(VideoPath(cardName)) == Format(cardName) + ".mp4"
    ensures Head(VideoPath(cardName)) == "./src/videos/"
  {
    var dir := "./src/videos/";
    var name := Format(cardName) + ".mp4";
    assert VideoPath(cardName) == dir + name;
    assert Sep !in name;
    LastIndexAppendFree(dir, name, Sep);
    LastIndexUnique(dir, Sep, |dir| - 1);
    HeadAppendFree(dir, name);
  }

  /** What create_video does: stop with -1, or render with these inputs to this file. */
  datatype VideoOutcome =
    | Exited(status: int)
    | Rendered(narration: string, music: string, output: string, timeline: FrameAnimator.Timeline)

  class YugiohVideoMaker {
    var cardName: Option<string>
    var cardEffect: Option<string>
    var cardReadableType: Option<string>
    var cardImage: Option<string>
    var cardType: Option<string>
    var prompt: Option<string>
    var script: Option<string>
    var audio: Option<string>
    var bgAudio: Option<int>
    var voiceId: string

    /** __init__ up to the voice lookup: the given details are stored and the voice name resolved. */
    constructor (cardName: Option<string>, voiceName: string, bgAudio: Option<int>, cardEffect: Option<string>,
                 cardReadableType: Option<string>, cardImage: Option<string>, cardType: Option<string>)
      ensures this.cardName == cardName && this.cardEffect == cardEffect
      ensures this.cardReadableType == cardReadableType && this.cardImage == cardImage && this.cardType == cardType
      ensures this.bgAudio == bgAudio && this.voiceId == ResolveVoiceId(voiceName)
      ensures prompt.None? && script.None? && audio.None?
    {
      this.cardName := cardName;
      this.cardEffect := cardEffect;
      this.cardReadableType := cardReadableType;
      this.cardImage := cardImage;
      this.cardType := cardType;
      prompt := None;
      script := None;
      audio := None;
      this.bgAudio := bgAudio;
      voiceId := ResolveVoiceId(voiceName);
    }

    /** get_audio: the narration is written to AudioPath(card_name), which becomes self.audio. */
    method GetAudio() returns (path: string)
      modifies this
      ensures path == AudioPath(cardName) && audio == Some(path)
      ensures cardName == old(cardName) && cardEffect == old(cardEffect) && cardReadableType == old(cardReadableType)
      ensures cardImage == old(cardImage) && cardType == old(cardType) && prompt == old(prompt)
      ensures script == old(script) && bgAudio == old(bgAudio) && voiceId == old(voiceId)
    {
      path := AudioPath(cardName);
      audio := Some(path);
    }

    /**
     * create_video up to the render. `files` are the paths that exist, `answer`
     * is the reply to the reuse question, `duration` the narration's length and
     * `roll` the draw of random.randint(1, 5).
     */
    method CreateVideo(files: set<string>, answer: string, duration: real, roll: int,
                       rotationStart: real, flipAxis: string, rotationEnd: real, flipRatio: real,
                       startScale: real, endScale: real) returns (r: VideoOutcome)
      modifies this
      ensures AudioPath(cardName) in files && answer != "y" ==> r == Exited(-1)
      ensures AudioPath(cardName) !in files || answer == "y" ==>
                r == Rendered(AudioPath(cardName), BackgroundTrack(bgAudio, roll), VideoPath(cardName),
                              FrameAnimator.MakeTimeline(duration, flipRatio, rotationStart, rotationEnd,
                                                         startScale, endScale, flipAxis))
      ensures audio == (if AudioPath(cardName) in files then old(audio) else Some(AudioPath(cardName)))
      ensures cardName == old(cardName) && cardEffect == old(cardEffect) && cardReadableType == old(cardReadableType)
      ensures cardImage == old(cardImage) && cardType == old(cardType) && prompt == old(prompt)
      ensures script == old(script) && bgAudio == old(bgAudio) && voiceId == old(voiceId)
    {
      var existingAudio := AudioPath(cardName);
      var narration: string;
      if existingAudio in files {
        if answer == "y" {
          narration := existingAudio;
        } else {
          return Exited(-1);
        }
      } else {
        narration := GetAudio();
      }
      var music := BackgroundTrack(bgAudio, roll);
      var timeline := FrameAnimator.MakeTimeline(duration, flipRatio, rotationStart, rotationEnd,
                                                 startScale, endScale, flipAxis);
      r := Rendered(narration, music, VideoPath(cardName), timeline);
    }
  }
}
