/** SoundPlayer: chooses MP3 or WAV playback from a file name's suffix, ignoring case, and
    keeps two registries of preloaded sounds by name: MP3 sounds by file path, WAV sounds by
    opened clip. Playback itself and the audio libraries are outside the model; what is
    modelled is which playback is started, which error is reported and how the registries
    change. */
module Sounds {
  import opened Wrappers

  /** The audio formats told apart by file suffix. */
  datatype Format = Mp3 | Wav | Unsupported

  /** An opened javax.sound Clip, known to the model only by an identity. */
  datatype Clip = Clip(handle: nat)

  /** The two static maps: loadedMp3Paths and loadedWavClips. */
  datatype Registry = Registry(mp3Paths: map<string, string>, wavClips: map<string, Clip>)

  const EmptyRegistry: Registry := Registry(map[], map[])

  /** What one call starts or reports: an MP3 played on its own thread from a path, a WAV
      played from a file, a preloaded clip stopped, rewound to frame 0 and started, or a line
      on standard error. */
  datatype Playback =
      PlayMp3(path: string)
    | PlayWav(path: string)
    | RestartClip(clip: Clip)
    | ReportError(message: string)

  const NullPathError: string := "SoundPlayer error: File path cannot be null"
  const NullNameError: string := "SoundPlayer error: Sound name cannot be null"
  const UnsupportedError: string := "SoundPlayer error: Unsupported audio format. Use .mp3 or .wav"
  const ErrorPrefix: string := "SoundPlayer error: "
  const NotLoadedPrefix: string := "SoundPlayer error: Sound not loaded - "

  /** toLowerCase on one character, for the ASCII letters. */
  function LowerChar(c: char): (r: char)
    ensures 'A' <= c <= 'Z' ==> r as int == c as int + 32
    ensures !('A' <= c <= 'Z') ==> r == c
  {
    if 'A' <= c <= 'Z' then (c as int + 32) as char else c
  }

  /** toLowerCase on a string, character by character. */
  function Lower(s: string): (r: string)
    ensures |r| == |s|
    ensures forall i :: 0 <= i < |s| ==> r[i] == LowerChar(s[i])
  {
    seq(|s|, i requires 0 <= i < |s| => LowerChar(s[i]))
  }

  predicate EndsWith(s: string, suffix: string)
  {
    |suffix| <= |s| && s[|s| - |suffix|..] == suffix
  }

  /** The suffix test playSound and loadSound share: ".mp3" is tried before ".wav" on the
      lower-cased path. A path is MP3 exactly when its last four characters lower-case to
      ".mp3", and likewise for WAV. */
  function FormatOf(path: string): (r: Format)
    ensures r == Mp3 <==> |path| >= 4 && Lower(path[|path| - 4..]) == ".mp3"
    ensures r == Wav <==> |path| >= 4 && Lower(path[|path| - 4..]) == ".wav"
  {
    var lower := Lower(path);
    assert |path| >= 4 ==> lower[|path| - 4..] == Lower(path[|path| - 4..]) by {
      if |path| >= 4 {
        LowerOfSuffix(path, |path| - 4);
      }
    }
    if EndsWith(lower, ".mp3") then Mp3
    else if EndsWith(lower, ".wav") then Wav
    else Unsupported
  }

  /** Lower-casing commutes with taking a suffix. */
  lemma LowerOfSuffix(s: string, from: nat)
    requires from <= |s|
    ensures Lower(s)[from..] == Lower(s[from..])
  {
  }

  /** Lower-casing twice is lower-casing once. */
  lemma LowerIsIdempotent(s: string)
    ensures Lower(Lower(s)) == Lower(s)
  {
  }

  /** The format ignores case: two paths that lower-case alike have the same format, so in
      particular a path and its lower-cased form do. */
  lemma FormatIgnoresCase(p: string, q: string)
    requires Lower(p) == Lower(q)
    ensures FormatOf(p) == FormatOf(q)
    ensures FormatOf(Lower(p)) == FormatOf(p)
  {
    LowerIsIdempotent(p);
    if |p| >= 4 {
      LowerOfSuffix(p, |p| - 4);
      LowerOfSuffix(q, |q| - 4);
      LowerOfSuffix(Lower(p), |p| - 4);
    }
  }

  /** Examples: the case of the suffix does not matter, other suffixes are unsupported, and
      a name shorter than a suffix has none. */
  lemma FormatExamples(stem: string)
    ensures FormatOf(stem + ".MP3") == Mp3 && FormatOf(stem + ".mp3") == Mp3
    ensures FormatOf(stem + ".Wav") == Wav
    ensures FormatOf(stem + ".txt") == Unsupported
    ensures FormatOf("mp3") == Unsupported
  {
    assert (stem + ".MP3")[|stem|..] == ".MP3";
    assert (stem + ".mp3")[|stem|..] == ".mp3";
    assert (stem + ".Wav")[|stem|..] == ".Wav";
    assert (stem + ".txt")[|stem|..] == ".txt";
    assert Lower(".MP3") == ".mp3";
    assert Lower(".mp3") == ".mp3";
    assert Lower(".Wav") == ".wav";
    assert Lower(".txt")[1] == 't';
  }

  /** playSound: a null path and an unsupported suffix are reported; otherwise the file is
      played with the player its suffix selects, from the path as given (not lower-cased). */
  function PlaySound(path: Option<string>): (r: Playback)
    ensures path.None? ==> r == ReportError(NullPathError)
    ensures path.Some? ==> match FormatOf(path.value)
                             case Mp3 => r == PlayMp3(path.value)
                             case Wav => r == PlayWav(path.value)
                             case Unsupported => r == ReportError(UnsupportedError)
  {
    match path
      case None => ReportError(NullPathError)
      case Some(p) =>
        match FormatOf(p)
          case Mp3 => PlayMp3(p)
          case Wav => PlayWav(p)
          case Unsupported => ReportError(UnsupportedError)
  }

  /** The registries after loadSound, and the error it printed if any. */
  datatype Loaded = Loaded(registry: Registry, error: Option<string>)

  /** loadSound(name, path). The name is checked before the path. An MP3 only records its
      path and opens nothing. A WAV is opened; wavOpen is the outcome of opening it (the
      clip, or the message of the exception that stopped it), which the model receives
      rather than computes. */
  function LoadSound(reg: Registry, name: Option<string>, path: Option<string>,
                     wavOpen: Result<Clip, string>): (r: Loaded)
    ensures name.None? ==> r == Loaded(reg, Some(NullNameError))
    ensures name.Some? && path.None? ==> r == Loaded(reg, Some(NullPathError))
    ensures r.error.None? <==>
              name.Some? && path.Some? &&
              (FormatOf(path.value) == Mp3 || (FormatOf(path.value) == Wav && wavOpen.Success?))
  {
    match (name, path)
      case (None, _) => Loaded(reg, Some(NullNameError))
      case (Some(_), None) => Loaded(reg, Some(NullPathError))
      case (Some(n), Some(p)) =>
        match FormatOf(p)
          case Mp3 => Loaded(reg.(mp3Paths := reg.mp3Paths[n := p]), None)
          case Wav =>
            (match wavOpen
               case Success(clip) => Loaded(reg.(wavClips := reg.wavClips[n := clip]), None)
               case Failure(message) => Loaded(reg, Some(ErrorPrefix + message)))
          case Unsupported => Loaded(reg, Some(UnsupportedError))
  }

  /** Null inputs, unsupported suffixes and failed WAV loads leave both registries as they
      were. */
  lemma FailedLoadsChangeNothing(reg: Registry, name: Option<string>, path: Option<string>,
                                 wavOpen: Result<Clip, string>)
    ensures LoadSound(reg, name, path, wavOpen).error.Some? ==>
              LoadSound(reg, name, path, wavOpen).registry == reg
  {
  }

  /** Loading an MP3 maps the name to the path as given, replacing an earlier entry, and
      touches neither the WAV registry nor any file: the WAV outcome plays no part. */
  lemma Mp3LoadRecordsPath(reg: Registry, name: string, path: string,
                           w1: Result<Clip, string>, w2: Result<Clip, string>)
    requires FormatOf(path) == Mp3
    ensures var r := LoadSound(reg, Some(name), Some(path), w1).registry;
            name in r.mp3Paths && r.mp3Paths[name] == path
            && (forall n :: n != name ==> (n in r.mp3Paths <==> n in reg.mp3Paths))
            && (forall n :: n != name && n in reg.mp3Paths ==> r.mp3Paths[n] == reg.mp3Paths[n])
            && r.wavClips == reg.wavClips
    ensures LoadSound(reg, Some(name), Some(path), w1) == LoadSound(reg, Some(name), Some(path), w2)
  {
  }

  /** A WAV load that succeeds maps the name to the opened clip, keeps every other name's
      clip and leaves the MP3 registry alone. */
  lemma WavLoadRecordsClip(reg: Registry, name: string, path: string, clip: Clip)
    requires FormatOf(path) == Wav
    ensures var r := LoadSound(reg, Some(name), Some(path), Success(clip)).registry;
            name in r.wavClips && r.wavClips[name] == clip && r.mp3Paths == reg.mp3Paths
            && (forall n :: n != name ==> (n in r.wavClips <==> n in reg.wavClips))
            && (forall n :: n != name && n in reg.wavClips ==> r.wavClips[n] == reg.wavClips[n])
  {
  }

  /** Reloading a name keeps the number of registered sounds; a new name adds one. */
  lemma ReloadKeepsSize(reg: Registry, name: string, path: string, wavOpen: Result<Clip, string>)
    requires FormatOf(path) == Mp3
    ensures var r := LoadSound(reg, Some(name), Some(path), wavOpen).registry;
            |r.mp3Paths| == if name in reg.mp3Paths then |reg.mp3Paths| else |reg.mp3Paths| + 1
  {
    var m := reg.mp3Paths;
    if name in m {
      assert m[name := path].Keys == m.Keys;
    } else {
      assert m[name := path].Keys == m.Keys + {name};
    }
  }

  /** The empty string is an accepted name. */
  lemma EmptyNameIsAccepted(reg: Registry, path: string, wavOpen: Result<Clip, string>)
    requires FormatOf(path) == Mp3
    ensures var r := LoadSound(reg, Some(""), Some(path), wavOpen);
            r.error.None? && "" in r.registry.mp3Paths && r.registry.mp3Paths[""] == path
  {
  }

  /** playLoadedSound: the MP3 registry is consulted first, then the WAV registry, and an
      error is printed only when neither knows the name. A null name is never a key (loadSound
      rejects it), so it is reported as not loaded, with "null" in the message. */
  function PlayLoadedSound(reg: Registry, name: Option<string>): (r: Playback)
    ensures name.Some? && name.value in reg.mp3Paths ==> r == PlayMp3(reg.mp3Paths[name.value])
    ensures name.Some? && name.value !in reg.mp3Paths && name.value in reg.wavClips ==>
              r == RestartClip(reg.wavClips[name.value])
    ensures r.ReportError? <==>
              name.None? || (name.value !in reg.mp3Paths && name.value !in reg.wavClips)
    ensures r.ReportError? ==> r.message == NotLoadedPrefix + (if name.None? then "null" else name.value)
  {
    match name
      case None => ReportError(NotLoadedPrefix + "null")
      case Some(n) =>
        if n in reg.mp3Paths then PlayMp3(reg.mp3Paths[n])
        else if n in reg.wavClips then RestartClip(reg.wavClips[n])
        else ReportError(NotLoadedPrefix + n)
  }

  /** Loading then playing by name plays what was loaded: an MP3 plays from its path, and a
      WAV restarts its clip unless an MP3 of the same name was loaded before, which the MP3-
      first lookup keeps playing instead. */
  lemma LoadThenPlay(reg: Registry, name: string, path: string, clip: Clip)
    ensures FormatOf(path) == Mp3 ==>
              PlayLoadedSound(LoadSound(reg, Some(name), Some(path), Success(clip)).registry, Some(name))
              == PlayMp3(path)
    ensures FormatOf(path) == Wav && name !in reg.mp3Paths ==>
              PlayLoadedSound(LoadSound(reg, Some(name), Some(path), Success(clip)).registry, Some(name))
              == RestartClip(clip)
    ensures FormatOf(path) == Wav && name in reg.mp3Paths ==>
              PlayLoadedSound(LoadSound(reg, Some(name), Some(path), Success(clip)).registry, Some(name))
              == PlayMp3(reg.mp3Paths[name])
  {
  }

  /** Loading under one name leaves what every other name plays unchanged. */
  lemma LoadKeepsOtherNames(reg: Registry, name: string, other: string, path: Option<string>,
                            wavOpen: Result<Clip, string>)
    requires other != name
    ensures PlayLoadedSound(LoadSound(reg, Some(name), path, wavOpen).registry, Some(other))
            == PlayLoadedSound(reg, Some(other))
  {
  }

  /** Three sounds loaded under distinct names each play their own entry, and a fourth name
      is reported as not loaded. */
  lemma SeveralSounds(music: string, jump: string, coin: string, other: string,
                      mp3: string, wav: string, jumpClip: Clip, coinClip: Clip)
    requires music != jump && music != coin && jump != coin
    requires other != music && other != jump && other != coin
    requires FormatOf(mp3) == Mp3 && FormatOf(wav) == Wav
    ensures var r0 := LoadSound(EmptyRegistry, Some(music), Some(mp3), Success(jumpClip)).registry;
            var r1 := LoadSound(r0, Some(jump), Some(wav), Success(jumpClip)).registry;
            var r2 := LoadSound(r1, Some(coin), Some(wav), Success(coinClip)).registry;
            PlayLoadedSound(r2, Some(music)) == PlayMp3(mp3)
            && PlayLoadedSound(r2, Some(jump)) == RestartClip(jumpClip)
            && PlayLoadedSound(r2, Some(coin)) == RestartClip(coinClip)
            && PlayLoadedSound(r2, Some(other)).ReportError?
  {
    var r0 := LoadSound(EmptyRegistry, Some(music), Some(mp3), Success(jumpClip)).registry;
    var r1 := LoadSound(r0, Some(jump), Some(wav), Success(jumpClip)).registry;
    LoadThenPlay(EmptyRegistry, music, mp3, jumpClip);
    LoadKeepsOtherNames(EmptyRegistry, music, jump, Some(mp3), Success(jumpClip));
    LoadKeepsOtherNames(EmptyRegistry, music, coin, Some(mp3), Success(jumpClip));
    LoadKeepsOtherNames(EmptyRegistry, music, other, Some(mp3), Success(jumpClip));
    LoadThenPlay(r0, jump, wav, jumpClip);
    LoadKeepsOtherNames(r0, jump, music, Some(wav), Success(jumpClip));
    LoadKeepsOtherNames(r0, jump, coin, Some(wav), Success(jumpClip));
    LoadKeepsOtherNames(r0, jump, other, Some(wav), Success(jumpClip));
    LoadThenPlay(r1, coin, wav, coinClip);
    LoadKeepsOtherNames(r1, coin, music, Some(wav), Success(coinClip));
    LoadKeepsOtherNames(r1, coin, jump, Some(wav), Success(coinClip));
    LoadKeepsOtherNames(r1, coin, other, Some(wav), Success(coinClip));
  }
}
