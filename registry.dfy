/** The profile and custom-emotion registry of the capture application, as values.

    A `Store` holds what the two JSON files hold (`perfiles.json`, the ordered list
    of profile names; `emociones.json`, a bucket of custom emotions per profile)
    and the running application's `current_profile`. Each user action is a
    function from the store before it to the store after it; the screens' methods
    in module `Screens` are proved to perform exactly these transitions. */
module Registry {
  import opened Wrappers
  import opened Text
  import opened Dicts

  /** An RGBA colour as the colour picker reports it; only its alpha is constrained. */
  type Color = seq<real>

  /** One profile's custom emotions: name to colour, in insertion order. */
  type Bucket = Dict<Color>

  /** The most custom emotions one bucket may hold. */
  const MaxCustom: nat := 6

  /** The bucket used when no profile is selected. */
  const General: string := "general"

  /** `DEFAULT_EMOTIONS`: the built-in emotions, always offered and never stored. */
  const Builtins: Bucket := [
    Entry("felicidad", [1.0, 1.0, 0.0, 1.0]),
    Entry("tristeza", [0.0, 0.0, 1.0, 1.0]),
    Entry("enfado", [1.0, 0.0, 0.0, 1.0]),
    Entry("sorpresa", [1.0, 0.5, 0.0, 1.0])
  ]

  predicate IsBuiltin(name: string) {
    Has(Builtins, name)
  }

  /** The built-ins are the four emotions in this order, all opaque. */
  lemma BuiltinNames(name: string)
    ensures Keys(Builtins) == ["felicidad", "tristeza", "enfado", "sorpresa"]
    ensures IsBuiltin(name) <==> name in ["felicidad", "tristeza", "enfado", "sorpresa"]
    ensures forall i :: 0 <= i < |Builtins| ==> |Builtins[i].value| == 4 && Builtins[i].value[3] == 1.0
  {
  }

  /** `current_profile or "general"`: the key of the bucket the emotion screens use.
      It is `general` exactly when no profile is set or the profile is called `general`. */
  function BucketKey(current: Option<string>): (key: string)
    ensures key != ""
    ensures key == General <==> !Truthy(current) || current.value == General
    ensures Truthy(current) ==> key == current.value
  {
    if Truthy(current) then current.value else General
  }

  /** The persistent state (both files, an absent file read as empty) and the
      selected profile. */
  datatype Store = Store(profiles: seq<string>, emotions: map<string, Bucket>, current: Option<string>)

  /** `emotions.get(key, {})`: a missing bucket reads as empty. */
  function BucketOf(s: Store, key: string): (b: Bucket)
    ensures key !in s.emotions ==> b == []
    ensures key in s.emotions ==> b == s.emotions[key]
  {
    if key in s.emotions then s.emotions[key] else []
  }

  /** The bucket of the selected profile, or the `general` one. */
  function CurrentBucket(s: Store): Bucket {
    BucketOf(s, BucketKey(s.current))
  }

  /** `text.strip().lower()`, the form in which an emotion name is stored. */
  function NormalizeName(input: string): string {
    Lower(Strip(input))
  }

  /** A normalised name is empty exactly when the input is blank, has no whitespace
      at either end and no upper-case letter, and is no longer than the input. */
  lemma NormalizedShape(input: string)
    ensures var name := NormalizeName(input);
      && (name == [] <==> AllSpace(input))
      && (name == [] || (!IsSpace(name[0]) && !IsSpace(name[|name| - 1])))
      && (forall i :: 0 <= i < |name| ==> !IsUpper(name[i]))
      && |name| <= |input|
  {
  }

  /** Normalising a normalised name changes nothing: lower-casing keeps whitespace
      where it was, so the stripped, lower-cased name has none at either end and is
      already lower-case. */
  lemma NormalizeIdempotent(input: string)
    ensures NormalizeName(NormalizeName(input)) == NormalizeName(input)
  {
    var t := NormalizeName(input);
    assert t == [] || (!IsSpace(t[0]) && !IsSpace(t[|t| - 1]));
    StripTrimmed(t);
    LowerIdempotent(Strip(input));
  }

  predicate IsOpaque(c: Color) {
    |c| > 0 && c[|c| - 1] == 1.0
  }

  /** `color_picker.color[:3] + [1]`: the picked red, green and blue with alpha 1. */
  function OpaqueColor(picked: Color): (c: Color)
    ensures IsOpaque(c) && |c| == (if |picked| < 3 then |picked| else 3) + 1
    ensures forall i :: 0 <= i < |c| - 1 ==> c[i] == picked[i]
  {
    (if |picked| <= 3 then picked else picked[..3]) + [1.0]
  }

  predicate NoDuplicates(names: seq<string>) {
    forall i, j :: 0 <= i < j < |names| ==> names[i] != names[j]
  }

  /** The position of the first occurrence of `x`. */
  function Find(names: seq<string>, x: string): (i: nat)
    requires x in names
    ensures i < |names| && names[i] == x && x !in names[..i]
  {
    if names[0] == x then 0 else 1 + Find(names[1..], x)
  }

  /** `names.remove(x)`: only the first occurrence of `x` goes, the rest keep their order. */
  function RemoveFirst(names: seq<string>, x: string): (r: seq<string>)
    requires x in names
    ensures |r| == |names| - 1
    ensures names == r[..Find(names, x)] + [x] + r[Find(names, x)..]
    ensures NoDuplicates(names) ==> NoDuplicates(r) && x !in r
  {
    var i := Find(names, x);
    var r := names[..i] + names[i + 1..];
    assert forall a :: 0 <= a < |r| ==> r[a] == names[if a < i then a else a + 1];
    assert names == r[..i] + [x] + r[i..];
    r
  }

  /** A profile name as `create_profile` stores it: non-empty and stripped. */
  predicate ProfileName(name: string) {
    name != "" && Strip(name) == name
  }

  /** A custom emotion name as `save_emotion` stores it: non-empty, normalised and
      not one of the built-in names. */
  predicate CustomName(name: string) {
    name != "" && NormalizeName(name) == name && !IsBuiltin(name)
  }

  /** At most six custom emotions, none shadowing a built-in one, all opaque. */
  predicate BucketOk(b: Bucket) {
    && |b| <= MaxCustom
    && forall i :: 0 <= i < |b| ==> CustomName(b[i].key) && IsOpaque(b[i].value)
  }

  /** The invariant every action preserves. */
  predicate Valid(s: Store) {
    && NoDuplicates(s.profiles)
    && (forall i :: 0 <= i < |s.profiles| ==> ProfileName(s.profiles[i]))
    && (forall k :: k in s.emotions ==> BucketOk(s.emotions[k]))
  }

  /** `StartScreen.create_profile`: a blank name does nothing; otherwise the stripped
      name is appended unless already listed, and it becomes the current profile. */
  function CreateProfile(s: Store, input: string): (r: Store)
    ensures AllSpace(input) ==> r == s
    ensures !AllSpace(input) ==>
      && r.current == Some(Strip(input))
      && r.emotions == s.emotions
      && Strip(input) in r.profiles
      && s.profiles <= r.profiles
      && |r.profiles| <= |s.profiles| + 1
    ensures Strip(input) in s.profiles ==> r.profiles == s.profiles
  {
    var name := Strip(input);
    if name == "" then s
    else
      s.(profiles := if name in s.profiles then s.profiles else s.profiles + [name],
         current := Some(name))
  }

  /** `StartScreen.delete_profile`: a listed name loses its first occurrence in the
      list and its bucket; an unlisted name changes nothing. The selection is kept. */
  function DeleteProfile(s: Store, name: string): (r: Store)
    ensures name !in s.profiles ==> r == s
    ensures name in s.profiles ==>
      && |r.profiles| == |s.profiles| - 1
      && s.profiles == r.profiles[..Find(s.profiles, name)] + [name] + r.profiles[Find(s.profiles, name)..]
      && r.emotions == s.emotions - {name}
    ensures r.current == s.current
  {
    if name in s.profiles then
      s.(profiles := RemoveFirst(s.profiles, name),
         emotions := if name in s.emotions then s.emotions - {name} else s.emotions)
    else s
  }

  /** `StartScreen.select_profile` */
  function SelectProfile(s: Store, name: string): (r: Store)
    ensures r.profiles == s.profiles && r.emotions == s.emotions
    ensures r.current == Some(name)
  {
    s.(current := Some(name))
  }

  /** `StartScreen.skip_profile` */
  function SkipProfile(s: Store): (r: Store)
    ensures r.profiles == s.profiles && r.emotions == s.emotions
    ensures r.current == None && BucketKey(r.current) == General
  {
    s.(current := None)
  }

  /** How one attempt to add a custom emotion ends. */
  datatype AddOutcome = LimitReached | Rejected | Saved(name: string)

  /** Whether `save_emotion` accepts a normalised name for a bucket. */
  predicate Admissible(b: Bucket, name: string) {
    name != "" && !IsBuiltin(name) && !Has(b, name)
  }

  /** `NewEmotionScreen.add_custom_emotion` with one press of its save button, on the
      snapshot read when the popup opens. A full bucket is refused; an empty, built-in
      or already present name is rejected; otherwise exactly that name is appended
      to the current bucket (which is created if missing), with an opaque colour. */
  function AddCustomEmotion(s: Store, input: string, picked: Color): (r: (Store, AddOutcome))
    ensures r.1 == LimitReached <==> |CurrentBucket(s)| >= MaxCustom
    ensures r.1.Saved? <==> |CurrentBucket(s)| < MaxCustom && Admissible(CurrentBucket(s), NormalizeName(input))
    ensures !r.1.Saved? ==> r.0 == s
    ensures r.1.Saved? ==>
      && r.1.name == NormalizeName(input)
      && r.0.profiles == s.profiles && r.0.current == s.current
      && r.0.emotions.Keys == s.emotions.Keys + {BucketKey(s.current)}
      && (forall k :: k in s.emotions && k != BucketKey(s.current) ==> r.0.emotions[k] == s.emotions[k])
      && CurrentBucket(r.0) == CurrentBucket(s) + [Entry(r.1.name, OpaqueColor(picked))]
    ensures |CurrentBucket(r.0)| <= MaxCustom || r.0 == s
  {
    var key := BucketKey(s.current);
    var bucket := CurrentBucket(s);
    if |bucket| >= MaxCustom then (s, LimitReached)
    else
      var name := NormalizeName(input);
      if Admissible(bucket, name) then
        var r := s.(emotions := s.emotions[key := Put(bucket, name, OpaqueColor(picked))]);
        assert CurrentBucket(r) == bucket + [Entry(name, OpaqueColor(picked))];
        (r, Saved(name))
      else (s, Rejected)
  }

  /** `NewEmotionScreen.remove_emotion`: a name in the current bucket is deleted from
      it, every other entry keeping its colour and order; otherwise nothing changes.
      An emptied bucket stays in the store. */
  function RemoveEmotion(s: Store, emotion: string): (r: Store)
    ensures !Has(CurrentBucket(s), emotion) ==> r == s
    ensures Has(CurrentBucket(s), emotion) ==>
      && r.profiles == s.profiles && r.current == s.current
      && r.emotions.Keys == s.emotions.Keys
      && (forall k :: k in s.emotions && k != BucketKey(s.current) ==> r.emotions[k] == s.emotions[k])
      && !Has(CurrentBucket(r), emotion)
      && |CurrentBucket(r)| == |CurrentBucket(s)| - 1
      && CurrentBucket(r) == CurrentBucket(s)[..IndexOf(CurrentBucket(s), emotion)]
                             + CurrentBucket(s)[IndexOf(CurrentBucket(s), emotion) + 1..]
      && (forall n :: n != emotion ==> (Has(CurrentBucket(r), n) <==> Has(CurrentBucket(s), n)))
      && (forall n :: n != emotion && Has(CurrentBucket(s), n) ==>
            Get(CurrentBucket(r), n) == Get(CurrentBucket(s), n))
  {
    var key := BucketKey(s.current);
    var bucket := CurrentBucket(s);
    if Has(bucket, emotion) then
      var b := Remove(bucket, emotion);
      s.(emotions := s.emotions[key := b])
    else s
  }

  /** `CaptureScreen.load_buttons`: the built-in emotions updated with the current
      bucket. */
  function Buttons(s: Store): (b: Bucket)
    ensures Keys(b) == Keys(Builtins) + NewKeys(Builtins, CurrentBucket(s))
    ensures forall n :: Has(b, n) <==> IsBuiltin(n) || Has(CurrentBucket(s), n)
    ensures forall n :: Has(CurrentBucket(s), n) ==> Get(b, n) == Get(CurrentBucket(s), n)
    ensures forall n :: IsBuiltin(n) && !Has(CurrentBucket(s), n) ==> Get(b, n) == Get(Builtins, n)
  {
    Update(Builtins, CurrentBucket(s))
  }

  /** In a valid store no custom emotion overrides a built-in one: the buttons are
      the four built-in ones in their own order and colours, then the custom ones in
      the order they were added, at most ten in all. */
  lemma ValidButtons(s: Store)
    requires Valid(s)
    ensures Keys(Buttons(s)) == Keys(Builtins) + Keys(CurrentBucket(s))
    ensures |Buttons(s)| <= |Builtins| + MaxCustom
    ensures forall n :: IsBuiltin(n) ==> Get(Buttons(s), n) == Get(Builtins, n)
  {
    var b := CurrentBucket(s);
    assert BucketOk(b);
    assert forall n :: Has(b, n) ==> !IsBuiltin(n);
    NewKeysDisjoint(Builtins, b);
  }

  /** Creating a profile keeps the list duplicate-free and every name stripped. */
  lemma CreatePreservesValid(s: Store, input: string)
    requires Valid(s)
    ensures Valid(CreateProfile(s, input))
  {
    var name := Strip(input);
    var r := CreateProfile(s, input);
    if name != "" && name !in s.profiles {
      StripIdempotent(input);
      assert ProfileName(name);
      assert r.profiles == s.profiles + [name];
      assert forall i :: 0 <= i < |s.profiles| ==> r.profiles[i] == s.profiles[i];
    }
  }

  /** Deleting a profile keeps the store valid and leaves no copy of the name. */
  lemma DeletePreservesValid(s: Store, name: string)
    requires Valid(s)
    ensures Valid(DeleteProfile(s, name)) && name !in DeleteProfile(s, name).profiles
  {
    var r := DeleteProfile(s, name);
    if name in s.profiles {
      var k := Find(s.profiles, name);
      forall i | 0 <= i < |r.profiles| ensures ProfileName(r.profiles[i]) {
        assert r.profiles[i] == s.profiles[if i < k then i else i + 1];
      }
    }
  }

  /** A saved emotion is non-empty, normalised, not built in and opaque, and the
      bucket it joins had fewer than six entries. */
  lemma AddPreservesValid(s: Store, input: string, picked: Color)
    requires Valid(s)
    ensures Valid(AddCustomEmotion(s, input, picked).0)
  {
    var r := AddCustomEmotion(s, input, picked);
    if r.1.Saved? {
      NormalizeIdempotent(input);
      var key := BucketKey(s.current);
      assert BucketOk(BucketOf(s, key));
      assert BucketOk(BucketOf(r.0, key));
      forall k | k in r.0.emotions ensures BucketOk(r.0.emotions[k]) {
        if k != key { assert r.0.emotions[k] == s.emotions[k]; }
      }
    }
  }

  /** Removing an emotion only drops an entry, so the store stays valid. */
  lemma RemovePreservesValid(s: Store, emotion: string)
    requires Valid(s)
    ensures Valid(RemoveEmotion(s, emotion))
  {
    var key := BucketKey(s.current);
    var bucket := CurrentBucket(s);
    if Has(bucket, emotion) {
      var b := Remove(bucket, emotion);
      assert forall i :: 0 <= i < |b| ==> b[i] in bucket;
      assert BucketOk(bucket);
      assert BucketOk(b);
    }
  }

  /** Submitting the same name twice is the same as submitting it once. */
  lemma CreateProfileIdempotent(s: Store, input: string)
    ensures CreateProfile(CreateProfile(s, input), input) == CreateProfile(s, input)
  {
  }

  /** Creating a new profile and deleting it restores the profile list; the
      cascade also drops any bucket that already existed under that name. */
  lemma DeleteUndoesCreate(s: Store, input: string)
    requires !AllSpace(input) && Strip(input) !in s.profiles
    ensures DeleteProfile(CreateProfile(s, input), Strip(input)).profiles == s.profiles
    ensures DeleteProfile(CreateProfile(s, input), Strip(input)).emotions == s.emotions - {Strip(input)}
  {
    var name := Strip(input);
    var c := CreateProfile(s, input);
    assert c.profiles == s.profiles + [name];
    assert Find(c.profiles, name) == |s.profiles|;
  }

  /** Removing an emotion just saved gives back the store the popup was opened
      on, except that a bucket created by the save is left behind empty. */
  lemma RemoveUndoesAdd(s: Store, input: string, picked: Color)
    requires AddCustomEmotion(s, input, picked).1.Saved?
    ensures var r := AddCustomEmotion(s, input, picked);
            RemoveEmotion(r.0, r.1.name) == s.(emotions := s.emotions[BucketKey(s.current) := CurrentBucket(s)])
  {
    var r := AddCustomEmotion(s, input, picked);
    var name := r.1.name;
    var bucket := CurrentBucket(s);
    RemoveAfterPut(bucket, name, OpaqueColor(picked));
    assert CurrentBucket(r.0) == Put(bucket, name, OpaqueColor(picked));
  }

  /** A profile literally called `general` shares the bucket used without a profile,
      and deleting that profile deletes the shared bucket. */
  lemma GeneralProfileSharesBucket(s: Store)
    requires General in s.profiles
    ensures CurrentBucket(SelectProfile(s, General)) == CurrentBucket(SkipProfile(s))
    ensures CurrentBucket(SkipProfile(DeleteProfile(s, General))) == []
  {
  }

  /** One action of the user on the start screen or the emotion screen. */
  datatype Action =
    | Create(input: string)
    | Delete(name: string)
    | Select(name: string)
    | Skip
    | Add(input: string, picked: Color)
    | RemoveCustom(emotion: string)

  function Step(s: Store, a: Action): Store {
    match a
    case Create(input) => CreateProfile(s, input)
    case Delete(name) => DeleteProfile(s, name)
    case Select(name) => SelectProfile(s, name)
    case Skip => SkipProfile(s)
    case Add(input, picked) => AddCustomEmotion(s, input, picked).0
    case RemoveCustom(emotion) => RemoveEmotion(s, emotion)
  }

  /** The store after a sequence of actions. */
  function Run(s: Store, actions: seq<Action>): Store
    decreases |actions|
  {
    if actions == [] then s else Run(Step(s, actions[0]), actions[1..])
  }

  /** Every sequence of actions from a valid store ends in a valid store: profile
      names stay unique, and no bucket ever exceeds six entries or shadows a
      built-in emotion. */
  lemma {:induction false} RunPreservesValid(s: Store, actions: seq<Action>)
    requires Valid(s)
    ensures Valid(Run(s, actions))
    decreases |actions|
  {
    if actions != [] {
      match actions[0] {
        case Create(input) => CreatePreservesValid(s, input);
        case Delete(name) => DeletePreservesValid(s, name);
        case Select(name) => SelectionKeepsValid(s, Some(name));
        case Skip => SelectionKeepsValid(s, None);
        case Add(input, picked) => AddPreservesValid(s, input, picked);
        case RemoveCustom(emotion) => RemovePreservesValid(s, emotion);
      }
      RunPreservesValid(Step(s, actions[0]), actions[1..]);
    }
  }

  /** Validity does not depend on which profile is selected. */
  lemma SelectionKeepsValid(s: Store, c: Option<string>)
    requires Valid(s)
    ensures Valid(s.(current := c))
  {
  }

  function Max(a: nat, b: nat): nat {
    if a < b then b else a
  }

  /** No action lets a bucket grow past six entries, or past its size if it was
      already larger (a file edited by hand). */
  lemma StepRespectsCap(s: Store, a: Action, key: string)
    ensures |BucketOf(Step(s, a), key)| <= Max(MaxCustom, |BucketOf(s, key)|)
  {
    match a
    case Add(input, picked) =>
      var r := AddCustomEmotion(s, input, picked);
      if r.1.Saved? && key == BucketKey(s.current) {
        assert |BucketOf(r.0, key)| == |BucketOf(s, key)| + 1;
      }
    case RemoveCustom(emotion) =>
    case _ =>
  }

  /** A bucket that starts with at most six entries never holds more than six,
      whatever the user does. */
  lemma {:induction false} RunRespectsCap(s: Store, actions: seq<Action>, key: string)
    ensures |BucketOf(Run(s, actions), key)| <= Max(MaxCustom, |BucketOf(s, key)|)
    decreases |actions|
  {
    if actions != [] {
      StepRespectsCap(s, actions[0], key);
      RunRespectsCap(Step(s, actions[0]), actions[1..], key);
    }
  }
}
