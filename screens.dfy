/** The screens' handlers over the running application's state.

    The fields of `App` stand for what the handlers read and write: the content of
    `perfiles.json`, the content of `emociones.json` and `App.current_profile`.
    Each handler re-reads a file, changes the loaded list or dictionary and writes
    it back whole; with a single writer that is an in-place update of the field.
    Every state-changing handler is proved to perform the transition of the same
    name in module `Registry`, where the invariants are proved. */
module Screens {
  import opened Wrappers
  import opened Text
  import opened Dicts
  import Registry
  import Paths

  class App {
    var profiles: seq<string>
    var emotionsData: map<string, Registry.Bucket>
    var currentProfile: Option<string>

    /** The registry state these fields hold. */
    function State(): Registry.Store
      reads this
    {
      Registry.Store(profiles, emotionsData, currentProfile)
    }

    /** Start-up: `load_profiles` and `load_emotions` read a missing file as an empty
        list or dictionary, and no profile is selected. */
    constructor (profileFile: Option<seq<string>>, emotionsFile: Option<map<string, Registry.Bucket>>)
      ensures profiles == (if profileFile.Some? then profileFile.value else [])
      ensures emotionsData == (if emotionsFile.Some? then emotionsFile.value else map[])
      ensures currentProfile == None
    {
      profiles := if profileFile.Some? then profileFile.value else [];
      emotionsData := if emotionsFile.Some? then emotionsFile.value else map[];
      currentProfile := None;
    }

    /** `StartScreen.create_profile`; `entered` tells whether the main screen is shown. */
    method CreateProfile(input: string) returns (entered: bool)
      modifies this
      ensures State() == Registry.CreateProfile(old(State()), input)
      ensures entered <==> !AllSpace(input)
    {
      var name := Strip(input);
      entered := name != "";
      if name != "" {
        if name !in profiles {
          profiles := profiles + [name];
        }
        currentProfile := Some(name);
      }
    }

    /** `StartScreen.delete_profile` */
    method DeleteProfile(name: string)
      modifies this
      ensures State() == Registry.DeleteProfile(old(State()), name)
    {
      if name in profiles {
        profiles := Registry.RemoveFirst(profiles, name);
        if name in emotionsData {
          emotionsData := emotionsData - {name};
        }
      }
    }

    /** `StartScreen.select_profile` */
    method SelectProfile(name: string)
      modifies this
      ensures State() == Registry.SelectProfile(old(State()), name)
    {
      currentProfile := Some(name);
    }

    /** `StartScreen.skip_profile` */
    method SkipProfile()
      modifies this
      ensures State() == Registry.SkipProfile(old(State()))
    {
      currentProfile := None;
    }

    /** `NewEmotionScreen.add_custom_emotion` followed by one press of the popup's
        save button (`save_emotion`), which works on the dictionary loaded when the
        popup opened. */
    method AddCustomEmotion(input: string, picked: Registry.Color) returns (outcome: Registry.AddOutcome)
      modifies this
      ensures (State(), outcome) == Registry.AddCustomEmotion(old(State()), input, picked)
    {
      var profile := Registry.BucketKey(currentProfile);
      var data := emotionsData;
      var emotions := if profile in data then data[profile] else [];
      assert emotions == Registry.CurrentBucket(State());
      if |emotions| >= Registry.MaxCustom {
        return Registry.LimitReached;
      }
      var newEmotion := Registry.NormalizeName(input);
      if newEmotion != "" && !Registry.IsBuiltin(newEmotion) && !Has(emotions, newEmotion) {
        assert Registry.Admissible(emotions, newEmotion);
        var color := Registry.OpaqueColor(picked);
        emotions := Put(emotions, newEmotion, color);
        data := data[profile := emotions];
        emotionsData := data;
        outcome := Registry.Saved(newEmotion);
      } else {
        outcome := Registry.Rejected;
      }
    }

    /** `NewEmotionScreen.remove_emotion` */
    method RemoveEmotion(emotion: string)
      modifies this
      ensures State() == Registry.RemoveEmotion(old(State()), emotion)
    {
      var profile := Registry.BucketKey(currentProfile);
      var data := emotionsData;
      var emotions := if profile in data then data[profile] else [];
      if Has(emotions, emotion) {
        data := data[profile := Remove(emotions, emotion)];
        emotionsData := data;
      }
    }

    /** `CaptureScreen.load_buttons`: a copy of the built-in emotions updated, entry by
        entry, with the current bucket; the result is the buttons' names and colours
        in layout order. */
    method LoadButtons() returns (buttons: Registry.Bucket)
      ensures buttons == Registry.Buttons(State())
    {
      buttons := Registry.Builtins;
      var custom := Registry.BucketOf(State(), Registry.BucketKey(currentProfile));
      var i := 0;
      while i < |custom|
        invariant 0 <= i <= |custom|
        invariant buttons == Update(Registry.Builtins, custom[..i])
      {
        assert custom[..i + 1][..i] == custom[..i];
        buttons := Put(buttons, custom[i].key, custom[i].value);
        i := i + 1;
      }
      assert custom[..i] == custom;
    }

    /** `CaptureScreen.get_save_dir` */
    method GetSaveDir() returns (dir: string)
      ensures dir == Paths.SaveDir(currentProfile)
    {
      if Truthy(currentProfile) {
        dir := Paths.Join(Paths.PhotoRoot, currentProfile.value);
      } else {
        dir := Paths.PhotoRoot;
      }
    }

    /** `CaptureScreen.capture_photo`: the emotion's folder is created in any case;
        a file is written only when the camera delivered a frame. */
    method CapturePhoto(emotion: string, frameAcquired: bool, timestamp: string)
      returns (dir: string, file: Option<string>)
      ensures dir == Paths.PhotoDir(currentProfile, emotion)
      ensures file.Some? <==> frameAcquired
      ensures frameAcquired ==> file.value == Paths.PhotoPath(currentProfile, emotion, timestamp)
    {
      var saveDir := GetSaveDir();
      dir := Paths.Join(saveDir, emotion);
      if frameAcquired {
        file := Some(Paths.Join(dir, Paths.PhotoName(emotion, timestamp)));
      } else {
        file := None;
      }
    }
  }
}
