# Profile and custom-emotion registry of the emotion photo-capture app

The application lets a user pick or create a profile, take webcam photos tagged
with an emotion, and manage up to six custom emotions per profile beside the four
built-in ones (`felicidad`, `tristeza`, `enfado`, `sorpresa`). This project models
the part of `main.py` that holds state and rules:

- the profile list (`perfiles.json`), the custom-emotion buckets
  (`emociones.json`, one insertion-ordered dictionary of name to RGBA colour per
  profile, or the `general` bucket when no profile is selected) and the selected
  profile (`App.current_profile`);
- the handlers that change them: create, delete (cascading to the bucket),
  select and skip a profile; add a custom emotion (cap check, popup, save); and
  remove one;
- the derived rules: the bucket key `current_profile or "general"`, the capture
  buttons (built-ins updated with the bucket) and the photo path
  `fotos[/<profile>]/<emotion>/<emotion>_<timestamp>.jpg`.

Modules:

- `Wrappers`: `Option` and the Python truthiness of an optional profile name.
- `Text`: `str.strip()` and `str.lower()` on typed names.
- `Dicts`: Python's insertion-ordered `dict` with string keys (`d[k] = v`,
  `del d[k]`, `d.update(e)`), as a sequence of entries with distinct keys.
- `Paths`: `os.path.join`, the save folder, the photo path, and a split on `/`
  used to state what the path's components are.
- `Registry`: the state as a value (`Store`), one function per user action, the
  invariant `Valid` (unique, stripped profile names; every bucket at most six
  normalised, non-built-in, opaque entries) and the lemmas about them.
- `Screens`: class `App`, whose fields are the two files and the selection; its
  methods are the screens' handlers, each proved to perform the `Registry`
  transition of the same name; `LoadButtons` runs the `update` loop and is proved
  equal to `Registry.Buttons`.

Behaviour kept as the code has it:

- Without a profile, photos go to `fotos/<emotion>`, while custom emotions use
  the `general` bucket (`Paths.NoProfilePhotosNotUnderGeneral`).
- A profile literally named `general` shares the no-profile bucket, and deleting
  it deletes that bucket (`Registry.GeneralProfileSharesBucket`).
- The save folder of a profile named like an emotion is the folder of that
  emotion's no-profile photos (`Paths.ProfileFolderMeetsEmotionFolder`).
- A profile named `.` is accepted, and once `.` is resolved its photos go to the
  no-profile files (`Paths.DotProfileMeetsNoProfile`).
- `delete_profile` removes only the first occurrence of the name (`list.remove`)
  and removes the bucket only when the name was listed; it does not clear the
  selection.
- Removing the last custom emotion leaves an empty bucket in the file; removing
  an emotion just added does not delete a bucket the add created
  (`Registry.RemoveUndoesAdd`).

## Model

| member | source | states |
|---|---|---|
| `Text.Strip` | main.py:78 | the stripped name is the input with a run of leading and a run of trailing whitespace cut off; it is empty exactly when the input is all whitespace, and otherwise neither starts nor ends with whitespace |
| `Registry.NormalizeIdempotent` | main.py:245 | `strip().lower()` applied to a stored emotion name gives the name back |
| `Text.Lower` | main.py:245 | every character is mapped to its lower-case form, the length is kept, no upper-case letter remains and whitespace stays where it was |
| `Registry.BuiltinNames` | main.py:28-33 | the built-ins are `felicidad`, `tristeza`, `enfado`, `sorpresa` in that order, a name is built-in exactly when it is one of them, and every built-in colour is opaque RGBA |
| `Registry.NormalizedShape` | main.py:245 | a normalised name is empty exactly when the input is blank, has no whitespace at either end and no upper-case letter |
| `Registry.BucketOf` | main.py:233 | a missing bucket reads as empty; a present one is returned as stored |
| `Registry.BucketKey` | main.py:231 | the bucket key is never empty, is the profile when one is set, and is `general` exactly when no profile is set or the profile is called `general` |
| `Registry.OpaqueColor` | main.py:247 | the saved colour is the first three picked components (all of them if fewer) followed by alpha 1 |
| `Registry.RemoveFirst` | main.py:90 | `list.remove` drops exactly the first occurrence, keeps the others in order, and keeps a duplicate-free list duplicate-free |
| `Dicts.Put` | main.py:248 | storing a key sets its value; a new key is appended last, an existing key keeps its position; other keys keep their values |
| `Dicts.Remove` | main.py:267 | deleting a key drops only that entry; the other entries keep their values and relative order |
| `Dicts.Update` | main.py:165-168 | after `update`, the keys are the original ones followed by the new keys in order; the updating dictionary's values win on a clash |
| `Registry.CreateProfile` | main.py:77-85 | a blank name changes nothing; otherwise the stripped name is in the list, appended at the end when new and the list unchanged when present, the emotions untouched, and it becomes the selected profile |
| `Registry.DeleteProfile` | main.py:87-98 | an unlisted name changes nothing; a listed name loses its first occurrence (others in order), its bucket is removed and all other buckets are untouched; the selection is kept |
| `Registry.SelectProfile` | main.py:100-102 | only the selection changes, to the given name |
| `Registry.SkipProfile` | main.py:104-106 | only the selection changes, to no profile, so the `general` bucket becomes the current one |
| `Registry.AddCustomEmotion` | main.py:229-252 | a bucket with six or more entries is refused unchanged; an empty, built-in or present name is rejected unchanged; otherwise exactly the normalised name is appended to the current bucket with an opaque colour, other buckets and the profile list untouched; the bucket never ends above six unless it started above |
| `Registry.RemoveEmotion` | main.py:262-269 | a name absent from the current bucket changes nothing; a present one is deleted from that bucket only, other names keeping colours and order, other buckets untouched |
| `Registry.Buttons` | main.py:162-168 | the buttons are the built-ins followed by the bucket's new names in order, a name is a button exactly when it is built-in or in the bucket, and the bucket's colour wins on a clash |
| `Registry.ValidButtons` | main.py:165-168 | in a valid store the buttons are the four built-ins in their order and colours followed by the bucket in insertion order, at most ten |
| `Registry.CreatePreservesValid` | main.py:77-85 | creating a profile keeps names unique and stripped |
| `Registry.DeletePreservesValid` | main.py:87-98 | deleting keeps the store valid and leaves no occurrence of the name |
| `Registry.AddPreservesValid` | main.py:235-250 | adding keeps every bucket at six or fewer normalised, non-built-in, opaque entries |
| `Registry.RemovePreservesValid` | main.py:262-268 | removing an emotion keeps the store valid |
| `Registry.CreateProfileIdempotent` | main.py:80-84 | submitting the same name twice equals submitting it once |
| `Registry.DeleteUndoesCreate` | main.py:80-96 | deleting a newly created profile restores the profile list and removes only that name's bucket |
| `Registry.RemoveUndoesAdd` | main.py:244-268 | removing a just-saved emotion restores the store, except that a bucket the save created stays, empty |
| `Registry.GeneralProfileSharesBucket` | main.py:87-98 | a profile called `general` uses the no-profile bucket, and deleting it empties that bucket |
| `Registry.RunPreservesValid` | main.py:235-250 | any sequence of user actions from a valid store ends in a valid store |
| `Registry.StepRespectsCap` | main.py:235-250 | no single action grows a bucket beyond six entries, or beyond its size if already larger |
| `Registry.RunRespectsCap` | main.py:235-250 | a bucket starting with at most six entries never exceeds six, whatever the actions |
| `Paths.Join` | main.py:156 | `os.path.join` keeps an absolute second part, else inserts one separator unless the first part is empty or ends in one |
| `Paths.PhotoPathSegments` | main.py:153-195 | the photo path's components are `fotos`, the profile when set, the emotion and `<emotion>_<ts>.jpg` |
| `Paths.PhotoPathInjective` | main.py:189-195 | two captures with the same path string had the same profile (or both none), emotion and timestamp string |
| `Paths.SaveDir` | main.py:153-158 | the save folder is `fotos` without a profile, `fotos/<profile>` with one, and the profile itself when it is an absolute path |
| `Paths.PhotoNameParts` | main.py:194 | the file name is the emotion, `_`, the timestamp and `.jpg`, each part at a fixed position |
| `Paths.PhotoPathEnds` | main.py:190-195 | the photo path ends with the file name and, unless the emotion is absolute, starts with the emotion's folder |
| `Paths.PhotoNameInjective` | main.py:194 | an emotion's photo file name determines its timestamp |
| `Paths.DotProfileMeetsNoProfile` | main.py:153-195 | a profile called `.` gives a different path string but, once `.` components are dropped, the same components as a capture without a profile |
| `Paths.NoProfilePhotosNotUnderGeneral` | main.py:155-158 | no-profile photos are not stored where a profile called `general` stores them |
| `Paths.ProfileFolderMeetsEmotionFolder` | main.py:153-160 | a profile named like an emotion has the same folder as that emotion's no-profile photos |
| `Screens.App.constructor` | main.py:35-53 | a missing file loads as an empty list or dictionary, and no profile is selected |
| `Screens.App.CreateProfile` | main.py:77-85 | performs `Registry.CreateProfile`; the main screen is entered exactly when the name is not blank |
| `Screens.App.DeleteProfile` | main.py:87-98 | performs `Registry.DeleteProfile` |
| `Screens.App.SelectProfile` | main.py:100-102 | performs `Registry.SelectProfile` |
| `Screens.App.SkipProfile` | main.py:104-106 | performs `Registry.SkipProfile` |
| `Screens.App.AddCustomEmotion` | main.py:229-260 | performs `Registry.AddCustomEmotion` and reports its outcome |
| `Screens.App.RemoveEmotion` | main.py:262-269 | performs `Registry.RemoveEmotion` |
| `Screens.App.LoadButtons` | main.py:162-174 | the `update` loop over the bucket yields exactly `Registry.Buttons` of the current state |
| `Screens.App.GetSaveDir` | main.py:153-160 | the save folder is `fotos/<profile>` with a profile and `fotos` without |
| `Screens.App.CapturePhoto` | main.py:189-197 | the emotion folder is always the one created; a file path is returned exactly when a frame was acquired, and it is the photo path |

## Left out

- Kivy screens, widgets, popups, messages, button captions and the `.kv` layout
  are not modelled; `NewEmotionScreen.load_buttons` only displays the current
  bucket. Screen changes are modelled only as `CreateProfile`'s `entered` result.
- The camera (`cv2.VideoCapture`, `update_camera`, `cv2.imwrite`) is I/O: whether
  a frame was read is the `frameAcquired` parameter of `CapturePhoto`.
- `export_data` (zip archive and HTTP upload) is file-system walking, an archive
  library and a network client.
- JSON encoding, `os.path.exists` and `os.makedirs` are persistence plumbing: the
  files are the fields of `App`, and `CapturePhoto` returns the folder it creates.
  File content of the wrong shape (not a list, not a dictionary of dictionaries)
  is not modelled; a bucket is assumed to have distinct keys, as `json.load`
  produces.
- `datetime.now()` is the `timestamp` parameter; `os.getcwd()` is left out, so
  paths are relative to the working directory.
- `Paths.PhotoPathInjective` is about timestamp strings, not capture instants:
  the timestamp has one-second resolution (`%Y%m%d_%H%M%S`, main.py:194), so two
  captures of one emotion under one profile within the same second get the same
  path, and the second `cv2.imwrite` overwrites the first photo (main.py:196).
- Several handlers read the files each time they run and write them back whole;
  writes by another program between a read and a write (last writer wins) are
  not modelled. The add-emotion popup is one atomic call on the snapshot taken
  when it opens; rejected presses of its save button change nothing, so a popup
  session is the call with the name finally accepted.
- Colours are `real` sequences, not floats; `Registry.OpaqueColor` states the
  length, the first three picked components kept and alpha 1, not float rounding.
- `Text.Lower` maps only ASCII and Latin-1 upper-case letters; Python's full
  Unicode case mapping (including mappings that change the length) is left out.
- `Paths.PhotoPathSegments` and `Paths.PhotoPathInjective` assume the profile,
  emotion and timestamp contain no `/` and the emotion is not empty; `Paths.Join`
  itself models absolute and separator-ending parts.
- `Paths.Join` is POSIX `os.path.join`; Windows separators and drive letters are
  not modelled.
- `Paths.PhotoPathInjective` is about path strings: the file system's resolution
  of `.` and `..` components is not modelled, apart from `.` in
  `Paths.DotProfileMeetsNoProfile`. A profile named `.` files its photos on the
  no-profile files, and one named `..` files them outside `fotos`, where the
  export does not look.
- `Registry.RunPreservesValid` needs a valid start; a hand-edited file can break
  the invariant, and `Registry.RunRespectsCap` states the cap without it.
