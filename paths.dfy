/** Where a captured photo is written: the capture screen's save directory, the
    per-emotion folder inside it and the time-stamped file name. Paths are relative
    to the application's working directory (the absolute prefix `os.getcwd()` is a
    parameter of the environment and is left out). */
module Paths {
  import opened Wrappers

  /** The photo root, `fotos`. */
  const PhotoRoot: string := "fotos"

  /** `os.path.join(a, b)` on POSIX: an absolute `b` replaces `a`, otherwise one
      `/` separates them unless `a` is empty or already ends in `/`. */
  function Join(a: string, b: string): (r: string)
    ensures |b| > 0 && b[0] == '/' ==> r == b
    ensures r == a + b || r == a + "/" + b || r == b
    ensures a != [] && a[|a| - 1] != '/' && (b == [] || b[0] != '/') ==> r == a + "/" + b
    ensures (b == [] || b[0] != '/') && (a == [] || a[|a| - 1] == '/') ==> r == a + b
  {
    if |b| > 0 && b[0] == '/' then b
    else if a == [] || a[|a| - 1] == '/' then a + b
    else a + "/" + b
  }

  /** `CaptureScreen.get_save_dir`: `fotos/<profile>` when a profile is set,
      `fotos` otherwise. */
  function SaveDir(current: Option<string>): (dir: string)
    ensures !Truthy(current) ==> dir == "fotos"
    ensures Truthy(current) && current.value[0] != '/' ==> dir == "fotos/" + current.value
    ensures Truthy(current) && current.value[0] == '/' ==> dir == current.value
  {
    if Truthy(current) then Join(PhotoRoot, current.value) else PhotoRoot
  }

  /** The folder `capture_photo` creates for one emotion. */
  function PhotoDir(current: Option<string>, emotion: string): string {
    Join(SaveDir(current), emotion)
  }

  /** `<emotion>_<timestamp>.jpg` */
  function PhotoName(emotion: string, timestamp: string): string {
    emotion + "_" + timestamp + ".jpg"
  }

  /** The file `capture_photo` writes. */
  function PhotoPath(current: Option<string>, emotion: string, timestamp: string): string {
    Join(PhotoDir(current, emotion), PhotoName(emotion, timestamp))
  }

  /** The file name is the emotion, `_`, the timestamp and `.jpg`, each part
      recoverable by position. */
  lemma PhotoNameParts(emotion: string, timestamp: string)
    ensures var name := PhotoName(emotion, timestamp);
      && |name| == |emotion| + |timestamp| + 5
      && name[..|emotion|] == emotion && name[|emotion|] == '_'
      && name[|emotion| + 1..|name| - 4] == timestamp && name[|name| - 4..] == ".jpg"
  {
  }

  /** The photo path ends with the file name and, unless the emotion is an absolute
      path, starts with the emotion's folder. */
  lemma PhotoPathEnds(current: Option<string>, emotion: string, timestamp: string)
    ensures var path, dir, name := PhotoPath(current, emotion, timestamp), PhotoDir(current, emotion), PhotoName(emotion, timestamp);
      && |name| <= |path| && path[|path| - |name|..] == name
      && (emotion == [] || emotion[0] != '/' ==> |dir| < |path| && path[..|dir|] == dir)
  {
    var name := PhotoName(emotion, timestamp);
    if emotion == [] || emotion[0] != '/' {
      assert name[0] != '/' by {
        if emotion != [] { assert name[0] == emotion[0]; } else { assert name[0] == '_'; }
      }
    }
  }

  /** The components of a path between its `/` separators, empty ones included. */
  function Split(s: string): (parts: seq<string>)
    ensures |parts| >= 1
  {
    if s == [] then [""]
    else
      var rest := Split(s[1..]);
      if s[0] == '/' then [""] + rest else [[s[0]] + rest[0]] + rest[1..]
  }

  /** A string without a separator is a single component. */
  lemma {:induction false} SplitPlain(s: string)
    requires '/' !in s
    ensures Split(s) == [s]
  {
    if s != [] {
      SplitPlain(s[1..]);
      assert [s[0]] + s[1..] == s;
    }
  }

  /** A separator after a plain component starts a new one. */
  lemma {:induction false} SplitCons(a: string, b: string)
    requires '/' !in a
    ensures Split(a + "/" + b) == [a] + Split(b)
  {
    if a == [] {
      assert a + "/" + b == ['/'] + b;
      assert (['/'] + b)[1..] == b;
    } else {
      var s := a + "/" + b;
      assert s[1..] == a[1..] + "/" + b;
      SplitCons(a[1..], b);
      assert [a[0]] + a[1..] == a;
    }
  }

  /** A non-empty path component: no separator inside. */
  predicate Segment(x: string) {
    x != [] && '/' !in x
  }

  /** The components `SaveDir` contributes: `fotos`, then the profile if one is set. */
  function DirSegments(current: Option<string>): seq<string> {
    if Truthy(current) then [PhotoRoot, current.value] else [PhotoRoot]
  }

  /** Appending to the save directory adds components after its own. */
  lemma SaveDirSplit(current: Option<string>, rest: string)
    requires Truthy(current) ==> '/' !in current.value
    ensures Split(SaveDir(current) + "/" + rest) == DirSegments(current) + Split(rest)
  {
    if Truthy(current) {
      var p := current.value;
      assert SaveDir(current) + "/" + rest == PhotoRoot + "/" + (p + "/" + rest);
      SplitCons(p, rest);
      SplitCons(PhotoRoot, p + "/" + rest);
    } else {
      SplitCons(PhotoRoot, rest);
    }
  }

  /** The save directory is never empty and never ends in a separator. */
  lemma SaveDirEnds(current: Option<string>)
    requires Truthy(current) ==> '/' !in current.value
    ensures var dir := SaveDir(current); dir != [] && dir[|dir| - 1] != '/'
  {
    if Truthy(current) {
      var p := current.value;
      assert SaveDir(current) == PhotoRoot + "/" + p;
      assert p[|p| - 1] in p;
    }
  }

  /** Every join on the way to the photo file inserts exactly one separator. */
  lemma PhotoPathShape(current: Option<string>, emotion: string, timestamp: string)
    requires Truthy(current) ==> '/' !in current.value
    requires Segment(emotion)
    ensures PhotoPath(current, emotion, timestamp)
         == SaveDir(current) + "/" + (emotion + "/" + PhotoName(emotion, timestamp))
  {
    var dir := SaveDir(current);
    SaveDirEnds(current);
    assert emotion[0] != '/' by { assert emotion[0] in emotion; }
    var pd := dir + "/" + emotion;
    assert PhotoDir(current, emotion) == pd;
    assert pd[|pd| - 1] != '/' by {
      assert pd[|pd| - 1] == emotion[|emotion| - 1];
      assert emotion[|emotion| - 1] in emotion;
    }
    var name := PhotoName(emotion, timestamp);
    assert name[0] != '/' by { assert name[0] == emotion[0]; }
    assert PhotoPath(current, emotion, timestamp) == pd + "/" + name;
    assert pd + "/" + name == dir + "/" + (emotion + "/" + name);
  }

  /** The photo lands at `fotos/<profile>/<emotion>/<emotion>_<ts>.jpg` when a
      profile is set and at `fotos/<emotion>/<emotion>_<ts>.jpg` otherwise, one
      component per name, provided no name contains a separator. */
  lemma PhotoPathSegments(current: Option<string>, emotion: string, timestamp: string)
    requires Truthy(current) ==> '/' !in current.value
    requires Segment(emotion) && '/' !in timestamp
    ensures Split(PhotoPath(current, emotion, timestamp))
         == DirSegments(current) + [emotion, PhotoName(emotion, timestamp)]
  {
    var name := PhotoName(emotion, timestamp);
    assert '/' !in name by {
      assert name == emotion + ("_" + timestamp + ".jpg");
    }
    SplitPlain(name);
    SplitCons(emotion, name);
    PhotoPathShape(current, emotion, timestamp);
    SaveDirSplit(current, emotion + "/" + name);
  }

  /** Captures with distinct timestamp strings never produce the same path string:
      the string determines whether a profile was set, which one, the emotion and
      the timestamp. Timestamps have one-second resolution, so two captures of one
      emotion within a second share a string; and the file system may resolve two
      strings to one file (see `DotProfileMeetsNoProfile`). */
  lemma PhotoPathInjective(c1: Option<string>, e1: string, t1: string,
                           c2: Option<string>, e2: string, t2: string)
    requires Truthy(c1) ==> '/' !in c1.value
    requires Truthy(c2) ==> '/' !in c2.value
    requires Segment(e1) && '/' !in t1
    requires Segment(e2) && '/' !in t2
    requires PhotoPath(c1, e1, t1) == PhotoPath(c2, e2, t2)
    ensures Truthy(c1) == Truthy(c2)
    ensures Truthy(c1) ==> c1.value == c2.value
    ensures e1 == e2 && t1 == t2
  {
    PhotoPathSegments(c1, e1, t1);
    PhotoPathSegments(c2, e2, t2);
    var s1 := Split(PhotoPath(c1, e1, t1));
    assert |s1| == if Truthy(c1) then 4 else 3;
    assert |s1| == if Truthy(c2) then 4 else 3;
    var n := |s1|;
    if Truthy(c1) { assert c1.value == s1[1] == c2.value; }
    assert e1 == s1[n - 2] == e2;
    assert PhotoName(e1, t1) == s1[n - 1] == PhotoName(e2, t2);
    PhotoNameInjective(e1, t1, t2);
  }

  /** The file name of an emotion's photo determines its timestamp. */
  lemma PhotoNameInjective(emotion: string, t1: string, t2: string)
    requires PhotoName(emotion, t1) == PhotoName(emotion, t2)
    ensures t1 == t2
  {
    PhotoNameParts(emotion, t1);
    PhotoNameParts(emotion, t2);
  }

  /** Photos taken without a profile are not filed under `general`, although the
      custom emotions used without a profile are: the no-profile folder of an
      emotion differs from that of a profile called `general`. */
  lemma NoProfilePhotosNotUnderGeneral(emotion: string, timestamp: string)
    requires Segment(emotion) && '/' !in timestamp
    ensures PhotoPath(None, emotion, timestamp) != PhotoPath(Some("general"), emotion, timestamp)
  {
    PhotoPathSegments(None, emotion, timestamp);
    PhotoPathSegments(Some("general"), emotion, timestamp);
  }

  /** The components left once `.` ("this folder") components are resolved away. */
  function DropDots(parts: seq<string>): (r: seq<string>)
    ensures forall x :: x in r <==> x in parts && x != "."
  {
    if parts == [] then []
    else (if parts[0] == "." then [] else [parts[0]]) + DropDots(parts[1..])
  }

  /** A profile called `.` passes as a profile name, yet once the file system
      resolves `.` its photos land on the same files as the photos taken
      without a profile. */
  lemma DotProfileMeetsNoProfile(emotion: string, timestamp: string)
    requires Segment(emotion) && emotion != "." && '/' !in timestamp
    ensures PhotoPath(Some("."), emotion, timestamp) != PhotoPath(None, emotion, timestamp)
    ensures DropDots(Split(PhotoPath(Some("."), emotion, timestamp)))
         == DropDots(Split(PhotoPath(None, emotion, timestamp)))
         == Split(PhotoPath(None, emotion, timestamp))
  {
    var name := PhotoName(emotion, timestamp);
    assert name != "." by { assert name[|emotion|] == '_'; }
    PhotoPathSegments(Some("."), emotion, timestamp);
    PhotoPathSegments(None, emotion, timestamp);
    var tail := [emotion, name];
    assert DropDots(tail) == tail by {
      assert [name][1..] == [];
      assert DropDots([name]) == [name];
      assert tail[1..] == [name];
    }
    assert [PhotoRoot] + tail == [PhotoRoot, emotion, name];
    assert ([PhotoRoot, "."] + tail)[1..] == ["."] + tail;
    assert (["."] + tail)[1..] == tail;
    assert ([PhotoRoot] + tail)[1..] == tail;
  }

  /** The save folder of a profile named like an emotion is the folder in which
      photos of that emotion taken without a profile are stored. */
  lemma ProfileFolderMeetsEmotionFolder(name: string)
    requires Segment(name)
    ensures SaveDir(Some(name)) == PhotoDir(None, name)
  {
  }
}
