/** Source audio on disk: object keys, their validation, and the write-once key-to-bytes store behind them. */
module AudioStore {
  import opened Basics
  import opened Tables

  const AUDIO_PREFIX := "audio/"
  const DATE_PATH := "1970/01/01"

  datatype AudioError = InvalidIdentifier | InvalidObjectKey | Io

  datatype Result<+T> = Ok(value: T) | Err(error: AudioError)

  // ---------------------------------------------------------------- keys

  predicate HasDots(v: string) {
    exists i :: 0 <= i < |v| - 1 && v[i] == '.' && v[i + 1] == '.'
  }

  /** `validate_identifier`. */
  predicate IsIdentifier(v: string) {
    v != "" && v != "." && '/' !in v && '\\' !in v && !HasDots(v)
  }

  /** `source_object_key`. */
  function SourceKey(user: string, utterance: string): Result<string> {
    if IsIdentifier(user) && IsIdentifier(utterance)
    then Ok(AUDIO_PREFIX + DATE_PATH + "/" + user + "/" + utterance + ".ogg")
    else Err(InvalidIdentifier)
  }

  /** The parts with a slash between each two. */
  function Joined(parts: seq<string>): string
    requires |parts| > 0
  {
    if |parts| == 1 then parts[0] else parts[0] + "/" + Joined(parts[1..])
  }

  /** `str::split('/')`: the one list of parts without a slash that joins to the text. */
  function Split(text: string): (parts: seq<string>)
    ensures |parts| > 0 && (forall p :: p in parts ==> '/' !in p)
    ensures Joined(parts) == text
  {
    if text == "" then [""]
    else
      var rest := Split(text[1..]);
      if text[0] == '/' then
        FirstIsEmpty(rest);
        [""] + rest
      else
        FirstGrows(text[0], rest);
        [[text[0]] + rest[0]] + rest[1..]
  }

  lemma FirstIsEmpty(rest: seq<string>)
    requires |rest| > 0
    ensures Joined([""] + rest) == "/" + Joined(rest)
  {
    assert ([""] + rest)[1..] == rest;
    assert "" + "/" + Joined(rest) == "/" + Joined(rest);
  }

  lemma FirstGrows(c: char, rest: seq<string>)
    requires |rest| > 0
    ensures Joined([[c] + rest[0]] + rest[1..]) == [c] + Joined(rest)
  {
    var parts := [[c] + rest[0]] + rest[1..];
    assert parts[1..] == rest[1..];
    if |rest| > 1 {
      Associate([c], rest[0], "/");
      Associate([c], rest[0] + "/", Joined(rest[1..]));
    }
  }

  predicate IsPart(part: string) {
    part != "" && part != "." && part != ".."
  }

  /** `relative_key` accepts the key. */
  predicate IsObjectKey(key: string) {
    AUDIO_PREFIX <= key &&
    var relative := key[|AUDIO_PREFIX|..];
    relative != "" && relative[0] != '/' && '\\' !in relative && forall p :: p in Split(relative) ==> IsPart(p)
  }

  lemma {:induction false} SplitOne(text: string)
    requires '/' !in text
    ensures Split(text) == [text]
  {
    if text != "" {
      assert forall c :: c in text[1..] ==> c in text;
      SplitOne(text[1..]);
      assert [text[0]] + text[1..] == text;
    }
  }

  /** What one more character in front does to the parts. */
  function Fronted(c: char, parts: seq<string>): seq<string>
    requires |parts| > 0
  {
    if c == '/' then [""] + parts else [[c] + parts[0]] + parts[1..]
  }

  lemma SplitFront(text: string)
    requires text != ""
    ensures Split(text) == Fronted(text[0], Split(text[1..]))
  {
  }

  lemma TailOfAppend(a: string, b: string)
    requires a != ""
    ensures (a + "/" + b)[0] == a[0] && (a + "/" + b)[1..] == a[1..] + "/" + b
  {
  }

  lemma {:induction false} SplitJoin(head: string, tail: string)
    requires '/' !in head
    ensures Split(head + "/" + tail) == [head] + Split(tail)
  {
    if head == "" {
      assert (head + "/" + tail)[1..] == tail;
      SplitFront(head + "/" + tail);
    } else {
      assert forall c :: c in head[1..] ==> c in head;
      SplitJoin(head[1..], tail);
      TailOfAppend(head, tail);
      SplitFront(head + "/" + tail);
      FrontedOne(head, Split(tail));
    }
  }

  lemma FrontedOne(head: string, more: seq<string>)
    requires head != "" && head[0] != '/'
    ensures Fronted(head[0], [head[1..]] + more) == [head] + more
  {
    assert [head[0]] + head[1..] == head;
  }

  lemma SplitKey(user: string, file: string)
    requires '/' !in user && '/' !in file
    ensures Split(DATE_PATH + "/" + (user + "/" + file)) == ["1970", "01", "01", user, file]
  {
    var tail := user + "/" + file;
    assert DATE_PATH + "/" + tail == "1970" + "/" + ("01" + "/" + ("01" + "/" + tail));
    SplitOne(file);
    SplitJoin(user, file);
    SplitJoin("01", tail);
    SplitJoin("01", "01" + "/" + tail);
    SplitJoin("1970", "01" + "/" + ("01" + "/" + tail));
  }

  lemma PartsAreFine(user: string, utterance: string)
    requires IsIdentifier(user) && IsIdentifier(utterance)
    ensures IsPart("1970") && IsPart("01") && IsPart(user) && IsPart(utterance + ".ogg")
    ensures '\\' !in DATE_PATH + "/" + (user + "/" + (utterance + ".ogg"))
  {
    assert HasDots("..") by { assert ".."[0] == '.' && ".."[1] == '.'; }
    assert |utterance + ".ogg"| > 2;
  }

  /** Every key the store prints is one it accepts when asked to read, size or delete by key. */
  lemma PrintedKeysAreAccepted(user: string, utterance: string)
    requires SourceKey(user, utterance).Ok?
    ensures IsObjectKey(SourceKey(user, utterance).value)
  {
    var key, file := SourceKey(user, utterance).value, utterance + ".ogg";
    var relative := DATE_PATH + "/" + (user + "/" + file);
    assert key == AUDIO_PREFIX + relative;
    assert key[|AUDIO_PREFIX|..] == relative;
    SplitKey(user, file);
    PartsAreFine(user, utterance);
  }

  /** A key names one user and one utterance. */
  lemma KeysAreInjective(user: string, utterance: string, user': string, utterance': string)
    requires SourceKey(user, utterance).Ok? && SourceKey(user, utterance) == SourceKey(user', utterance')
    ensures user == user' && utterance == utterance'
  {
    var base := AUDIO_PREFIX + DATE_PATH + "/";
    var a, b := user + "/" + utterance + ".ogg", user' + "/" + utterance' + ".ogg";
    var key := SourceKey(user, utterance).value;
    assert key == base + a && key == base + b;
    assert a == key[|base|..] && b == key[|base|..];
    assert a[|user|] == '/' && b[|user'|] == '/';
    assert forall i :: 0 <= i < |user| ==> a[i] in user;
    assert forall i :: 0 <= i < |user'| ==> b[i] in user';
    assert |user| == |user'|;
    assert user == a[..|user|] && user' == b[..|user|];
    assert utterance == a[|user| + 1..|a| - 4] && utterance' == b[|user| + 1..|b| - 4];
  }

  lemma FrontedAppend(c: char, parts: seq<string>, more: seq<string>)
    requires |parts| > 0
    ensures Fronted(c, parts + more) == Fronted(c, parts) + more
  {
    assert (parts + more)[1..] == parts[1..] + more;
  }

  lemma {:induction false} SplitAppend(a: string, b: string)
    ensures Split(a + "/" + b) == Split(a) + Split(b)
  {
    if a == "" {
      SplitJoin("", b);
      assert Split("") == [""];
    } else {
      SplitAppend(a[1..], b);
      TailOfAppend(a, b);
      SplitFront(a + "/" + b);
      SplitFront(a);
      FrontedAppend(a[0], Split(a[1..]), Split(b));
    }
  }

  /** No accepted key leads out of the audio directory: a step to the parent is refused, wherever it stands. */
  lemma ParentIsRefused(a: string, b: string)
    ensures !IsObjectKey("audio/" + "..") && !IsObjectKey("audio/" + (".." + "/" + b))
    ensures !IsObjectKey("audio/" + (a + "/" + "..")) && !IsObjectKey("audio/" + (a + "/" + (".." + "/" + b)))
  {
    ParentIsPart(b);
    SplitAppend(a, "..");
    SplitAppend(a, ".." + "/" + b);
    Refuses("..");
    Refuses(".." + "/" + b);
    Refuses(a + "/" + "..");
    Refuses(a + "/" + (".." + "/" + b));
  }

  lemma ParentIsPart(b: string)
    ensures ".." in Split("..") && ".." in Split(".." + "/" + b)
  {
    SplitOne("..");
    SplitAppend("..", b);
  }

  lemma Refuses(relative: string)
    ensures ".." in Split(relative) ==> !IsObjectKey("audio/" + relative)
  {
    assert ("audio/" + relative)[|AUDIO_PREFIX|..] == relative;
  }

  /** The path column `create_session` writes is the key `delete_source_audio_for` computes: what is sized by key is
      what is deleted by user and utterance. */
  lemma StoredPathIsSourceKey(s: SessionId)
    ensures SourceKey(DEFAULT_USER, UtteranceKey(s)) == Ok(AudioPath(UtteranceKey(s)))
    ensures AudioPath(UtteranceKey(s)) == "audio/1970/01/01/default/" + ("utterance:" + s) + ".ogg"
  {
    var u := UtteranceKey(s);
    assert u[0] == 'u';
    assert forall i :: 0 <= i < |u| ==> u[i] != '.' && u[i] != '/' && u[i] != '\\' by {
      assert forall i :: 0 <= i < |"utterance:"| ==> u[i] == "utterance:"[i];
      assert forall i :: |"utterance:"| <= i < |u| ==> u[i] == s[i - |"utterance:"|];
    }
    assert AudioPath(u) == AUDIO_PREFIX + DATE_PATH + "/" + DEFAULT_USER + "/" + u + ".ogg";
    assert forall i :: 0 <= i < |DEFAULT_USER| ==>
                         DEFAULT_USER[i] != '.' && DEFAULT_USER[i] != '/' && DEFAULT_USER[i] != '\\';
  }

  // ---------------------------------------------------------------- the store

  function SizeOf(files: map<string, Bytes>, key: string): nat {
    if key in files then |files[key]| else 0
  }

  /** What the disk does with a write: it lands whole, the file is never created, or the write fails part of the way. */
  datatype Disk = Works | Refuses | StopsAfter(n: nat)

  /** The files after a write under a fresh key, and whether it succeeded. A write that stops leaves a partial file. */
  function Put(files: map<string, Bytes>, key: string, payload: Bytes, disk: Disk): (map<string, Bytes>, bool) {
    match disk
    case Works => (files[key := payload], true)
    case Refuses => (files, false)
    case StopsAfter(n) => (files[key := payload[..Min(n, |payload|)]], false)
  }

  /** `write_source_audio`: write-once, so an existing file is an error and is never overwritten. */
  function Written(files: map<string, Bytes>, user: string, utterance: string, payload: Bytes, disk: Disk)
    : (map<string, Bytes>, bool)
  {
    var key := SourceKey(user, utterance);
    if key.Err? || key.value in files then (files, false) else Put(files, key.value, payload, disk)
  }

  class FileAudioStore {
    var files: map<string, Bytes>

    constructor ()
      ensures files == map[]
    {
      files := map[];
    }

    /** Write-once, and never over an existing file; a write that fails on the way leaves what had been written. */
    method WriteSourceAudio(user: string, utterance: string, payload: Bytes, disk: Disk) returns (r: Result<string>)
      modifies this
      ensures (files, r.Ok?) == Written(old(files), user, utterance, payload, disk)
      ensures r == if r.Ok? || SourceKey(user, utterance).Err? then SourceKey(user, utterance) else Err(Io)
      ensures r.Ok? ==> files == old(files)[r.value := payload]
    {
      r := SourceKey(user, utterance);
      if r.Err? { return; }
      if !IsObjectKey(r.value) {
        PrintedKeysAreAccepted(user, utterance);
        assert false;
      }
      if r.value in files || disk.Refuses? { return Err(Io); }
      var landed := if disk.StopsAfter? then Min(disk.n, |payload|) else |payload|;
      files := files[r.value := payload[..landed]];
      if disk.StopsAfter? { return Err(Io); }
      assert payload[..landed] == payload;
    }

    method ReadSourcePayloadByKey(key: string) returns (r: Result<Bytes>)
      ensures r == if !IsObjectKey(key) then Err(InvalidObjectKey)
                   else if key in files then Ok(files[key]) else Err(Io)
    {
      if !IsObjectKey(key) { return Err(InvalidObjectKey); }
      if key !in files { return Err(Io); }
      return Ok(files[key]);
    }

    method SourceAudioSizeByKey(key: string) returns (r: Result<nat>)
      ensures r == if IsObjectKey(key) then Ok(SizeOf(files, key)) else Err(InvalidObjectKey)
    {
      if !IsObjectKey(key) { return Err(InvalidObjectKey); }
      return Ok(if key in files then |files[key]| else 0);
    }

    /** A missing file is not an error, so a second delete changes nothing. */
    method DeleteSourceAudioFor(user: string, utterance: string) returns (r: Result<()>)
      modifies this
      ensures r == if SourceKey(user, utterance).Ok? then Ok(()) else Err(InvalidIdentifier)
      ensures files == if r.Ok? then old(files) - {SourceKey(user, utterance).value} else old(files)
    {
      var key := SourceKey(user, utterance);
      if key.Err? { return Err(InvalidIdentifier); }
      files := files - {key.value};
      return Ok(());
    }
  }
}
