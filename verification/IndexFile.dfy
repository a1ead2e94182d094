/**
 The index file: how a log file is added to it and a prefix of its log files purged, step by
 step on disk, and what a restart makes of a crash between any two of the steps.
 */
module IndexFile {
  import opened Basics

  type Name = string

  /******* The text of an index *******/

  predicate IsName(n: Name) {
    n != "" && forall k :: 0 <= k < |n| ==> n[k] != '\n'
  }

  ghost predicate AreNames(names: seq<Name>) {
    forall k :: 0 <= k < |names| ==> IsName(names[k])
  }

  function Text(names: seq<Name>): string {
    if names == [] then "" else names[0] + "\n" + Text(names[1..])
  }

  // Where the first line ends, its line break included.
  function LineEnd(text: string): (n: nat)
    ensures n <= |text|
    ensures forall k :: 0 <= k < n - 1 ==> text[k] != '\n'
  {
    if text == "" then 0 else if text[0] == '\n' then 1 else 1 + LineEnd(text[1..])
  }

  // The names a reader finds: it stops at an empty line and drops the last character of every
  // line, taking it for the line break.
  function Lines(text: string): seq<Name> {
    var n := LineEnd(text);
    if n <= 1 then [] else [text[..n - 1]] + Lines(text[n..])
  }

  lemma {:induction false} LineEndOf(n: Name, rest: string)
    requires forall k :: 0 <= k < |n| ==> n[k] != '\n'
    ensures LineEnd(n + "\n" + rest) == |n| + 1
  {
    var text := n + "\n" + rest;
    if n != "" {
      assert text[1..] == n[1..] + "\n" + rest;
      LineEndOf(n[1..], rest);
    }
  }

  lemma {:induction false} LinesOfText(names: seq<Name>)
    requires AreNames(names)
    ensures Lines(Text(names)) == names
  {
    if names != [] {
      FirstLine(names[0], Text(names[1..]));
      LinesOfText(names[1..]);
    }
  }

  lemma {:induction false} TextConcat(a: seq<Name>, b: seq<Name>)
    ensures Text(a + b) == Text(a) + Text(b)
  {
    if a == [] {
      assert a + b == b;
    } else {
      assert (a + b)[1..] == a[1..] + b;
      TextConcat(a[1..], b);
    }
  }

  // What a reader makes of the text of these names when its end is missing.
  predicate CutOff(cut: Name, names: seq<Name>) {
    exists q :: 0 <= q < |names| && |cut| < |names[q]| && cut == names[q][..|cut|]
  }

  lemma NoLineBreak(text: string)
    requires forall k :: 0 <= k < |text| ==> text[k] != '\n'
    ensures LineEnd(text) == |text|
  {
    if text != "" {
      NoLineBreak(text[1..]);
    }
  }

  lemma FirstLine(first: Name, tail: string)
    requires IsName(first)
    ensures Lines(first + "\n" + tail) == [first] + Lines(tail)
  {
    var text := first + "\n" + tail;
    LineEndOf(first, tail);
    assert text[..|first|] == first && text[|first| + 1..] == tail;
  }

  // All the names but the last come out whole; of that the reader drops the last character.
  lemma {:induction false} CutText(names: seq<Name>, text: string)
    requires AreNames(names) && text <= Text(names)
    ensures forall n :: n in Lines(text) ==> n != "" && (n in names || CutOff(n, names))
  {
    if names != [] {
      var first, rest := names[0], names[1..];
      if |text| > |first| {
        var tail := text[|first| + 1..];
        assert text == first + "\n" + tail;
        FirstLine(first, tail);
        CutText(rest, tail);
        forall n | n in Lines(tail)
          ensures n != "" && (n in names || CutOff(n, names))
        {
          if n !in rest {
            var q :| 0 <= q < |rest| && |n| < |rest[q]| && n == rest[q][..|n|];
            assert names[q + 1] == rest[q];
          }
        }
      } else {
        assert text == first[..|text|];
        NoLineBreak(text);
        assert text[|text|..] == "";
        if |text| > 1 {
          assert Lines(text) == [text[..|text| - 1]];
          assert text[..|text| - 1] == names[0][..|text| - 1];
        }
      }
    }
  }

  // Every part of a name turns up in some cut.
  lemma {:induction false} CutFound(names: seq<Name>, n: Name) returns (text: string)
    requires AreNames(names) && n != "" && CutOff(n, names)
    ensures text <= Text(names) && n in Lines(text)
  {
    var first, rest := names[0], names[1..];
    if |n| < |first| && n == first[..|n|] {
      text := first[..|n| + 1];
      NoLineBreak(text);
      assert Lines(text) == [text[..|n|]] + Lines(text[|n| + 1..]);
      assert text[..|n|] == n;
    } else {
      var q :| 0 <= q < |names| && |n| < |names[q]| && n == names[q][..|n|];
      assert rest[q - 1] == names[q];
      var tail := CutFound(rest, n);
      FirstLine(first, tail);
      text := first + "\n" + tail;
    }
  }

  /******* The disk *******/

  // How far a write has got: in the server's buffer, with the operating system, on disk.
  datatype Level = Buffered | Written | Durable

  // The text of a file; while it is being written, `under` is the length of what it is written over.
  datatype Content = Content(text: string, level: Level, under: nat)

  datatype Disk = Disk(files: set<Name>, index: Option<Content>, temp: Option<Content>, register: Option<Content>)

  datatype Action =
    | OpenRegister
    | WriteRegister(names: seq<Name>)
    | SyncRegister
    | CreateFile(name: Name)
    | OpenTemp
    | FillTemp(text: string)
    | FlushTemp
    | SyncTemp
    | DeleteIndex
    | RenameTemp
    | RestoreIndex
    | SyncIndex
    | DeleteFile(name: Name)
    | DeleteUnlisted(name: Name)
    | CloseRegister

  // Writing over a file that is not emptied first.
  function Overlay(text: string, leftover: string): string {
    if |leftover| <= |text| then text else text + leftover[|text|..]
  }

  function TextOf(c: Option<Content>): string {
    if c.Some? then c.value.text else ""
  }

  function Synced(text: string): Content {
    Content(text, Durable, 0)
  }

  // What a reader of the index finds.
  function Listed(d: Disk): seq<Name> {
    Lines(TextOf(d.index))
  }

  // The register file is deleted before it is opened, the temporary index is not. A start puts the
  // temporary index in place of a missing one.
  function Do(d: Disk, a: Action): Disk {
    match a
    case OpenRegister => d.(register := Some(Synced("")))
    case WriteRegister(names) => d.(register := Some(Content(Text(names), Buffered, 0)))
    case SyncRegister => d.(register := Some(Synced(TextOf(d.register))))
    case CreateFile(n) => d.(files := d.files + {n})
    case OpenTemp => if d.temp.Some? then d else d.(temp := Some(Synced("")))
    case FillTemp(text) =>
      var leftover := TextOf(d.temp);
      d.(temp := Some(Content(Overlay(text, leftover), Buffered, |leftover|)))
    case FlushTemp => if d.temp.Some? then d.(temp := Some(d.temp.value.(level := Written))) else d
    case SyncTemp => d.(temp := Some(Synced(TextOf(d.temp))))
    case DeleteIndex => d.(index := None)
    case RenameTemp => d.(index := d.temp, temp := None)
    case RestoreIndex => if d.index.None? && d.temp.Some? then d.(index := d.temp, temp := None) else d
    case SyncIndex => d.(index := Some(Synced(TextOf(d.index))))
    case DeleteFile(n) => d.(files := d.files - {n})
    case DeleteUnlisted(n) => if n in Listed(d) then d else d.(files := d.files - {n})
    case CloseRegister => d.(register := None)
  }

  function After(d: Disk, actions: seq<Action>): Disk {
    if actions == [] then d else Do(After(d, actions[..|actions| - 1]), actions[|actions| - 1])
  }

  // The steps of opening a new log file.
  function CreateActions(listed: seq<Name>, name: Name): (actions: seq<Action>)
    ensures |actions| == 12
  {
    [OpenRegister, WriteRegister([name]), SyncRegister, CreateFile(name),
     OpenTemp, FillTemp(Text(listed + [name])), FlushTemp, SyncTemp, DeleteIndex, RenameTemp, SyncIndex,
     CloseRegister]
  }

  // The steps of purging the first p log files. The temporary index is not synced here.
  function PurgeActions(listed: seq<Name>, p: nat): (actions: seq<Action>)
    requires p <= |listed|
    ensures |actions| == 9 + p + 1
  {
    [OpenRegister, WriteRegister(listed[..p]), SyncRegister,
     OpenTemp, FillTemp(Text(listed[p..])), FlushTemp, DeleteIndex, RenameTemp, SyncIndex]
      + seq(p, k requires 0 <= k < p => DeleteFile(listed[k])) + [CloseRegister]
  }

  // Names of existing files, each once.
  ghost predicate AreLogs(files: set<Name>, listed: seq<Name>) {
    && AreNames(listed) && (forall i, j :: 0 <= i < j < |listed| ==> listed[i] != listed[j])
    && (forall n :: n in listed ==> n in files)
  }

  // A synced index of existing files.
  ghost predicate Indexed(d: Disk, listed: seq<Name>) {
    AreLogs(d.files, listed) && d.index == Some(Synced(Text(listed))) && d.register == None
  }

  // What an operation finds when nothing is left over.
  ghost predicate Clean(d: Disk, listed: seq<Name>) {
    Indexed(d, listed) && d.temp == None
  }

  // What a start leaves: perhaps a temporary index, no longer than the index would be with one
  // more name of the given length.
  ghost predicate Startable(d: Disk, listed: seq<Name>, longest: nat) {
    Indexed(d, listed) && Rests(d.temp) && |TextOf(d.temp)| <= |Text(listed)| + longest + 1
  }

  /******* Crash and restart *******/

  // Out of reach of a crash: a power failure also takes what the operating system holds.
  predicate Safe(c: Content, power: bool) {
    c.level == Durable || (c.level == Written && !power)
  }

  // What is left of a file: all of it if that is safe, otherwise a part of what was written, or
  // anything as long as what it was written over. After the death of the server it is with the
  // operating system.
  predicate Leaves(was: Option<Content>, left: Option<Content>, power: bool) {
    match was
    case None => left == None
    case Some(c) =>
      && left.Some?
      && left.value.level == (if power || c.level == Durable then Durable else Written)
      && left.value.under == (if left.value.level == Durable then 0 else c.under)
      && (if Safe(c, power) then TextOf(left) == c.text
        else |TextOf(left)| == c.under || (TextOf(left) <= c.text && c.under <= |TextOf(left)|))
  }

  // A file to which nothing is being written, as a crash leaves it.
  predicate Rests(c: Option<Content>) {
    c.Some? ==>
      c.value.level != Buffered && c.value.under <= |c.value.text| && (c.value.level == Durable ==> c.value.under == 0)
  }

  // All of a file may be left.
  lemma AllIsLeft(c: Content, power: bool)
    requires c.under <= |c.text| && (c.level == Durable ==> c.under == 0)
    ensures
      var level := if power || c.level == Durable then Durable else Written;
      Leaves(Some(c), Some(Content(c.text, level, if level == Durable then 0 else c.under)), power)
  {
  }

  predicate Crash(d: Disk, left: Disk, power: bool) {
    && left.files == d.files
    && Leaves(d.index, left.index, power) && Leaves(d.temp, left.temp, power)
    && Leaves(d.register, left.register, power)
  }

  // The steps of a start that finds the given names in the register: the index is restored and
  // synced, then every registered file that is not in it is deleted.
  function RestartActions(found: seq<Name>): (actions: seq<Action>)
    ensures |actions| == 3 + |found|
  {
    [RestoreIndex, SyncIndex] + seq(|found|, k requires 0 <= k < |found| => DeleteUnlisted(found[k])) + [CloseRegister]
  }

  function Found(d: Disk): seq<Name> {
    Lines(TextOf(d.register))
  }

  // What a start reads as the index.
  function Source(d: Disk): Option<Content> {
    if d.index.Some? then d.index else d.temp
  }

  // The files that are not found in the register, or are listed.
  function Spared(files: set<Name>, found: seq<Name>, list: seq<Name>): set<Name> {
    set n | n in files && !(n in found && n !in list)
  }

  // What these steps make of the disk if nothing interrupts them.
  function Restart(d: Disk): Disk {
    var index := TextOf(Source(d));
    Disk(Spared(d.files, Found(d), Lines(index)), Some(Synced(index)), if d.index.Some? then d.temp else None, None)
  }

  lemma RestartFiles(left: Disk, found: seq<Name>, list: seq<Name>)
    requires found == Found(left) && list == Listed(Restart(left))
    ensures Restart(left).files == set n | n in left.files && !(n in found && n !in list)
  {
  }

  // The files and the list agree: what is listed exists, and what an operation has registered
  // is not left behind unlisted.
  ghost predicate Consistent(d: Disk, registered: seq<Name>) {
    && (forall n :: n in Listed(d) ==> n in d.files)
    && (forall n :: n in registered && n in d.files ==> n in Listed(d))
  }

  // The files are these; if the register was cut off by the crash, a file in the directory that
  // is not a listed log and has the name that was left of a registered one is deleted too.
  ghost predicate FilesAre(d: Disk, files: set<Name>, registered: seq<Name>, cut: bool) {
    && d.files <= files
    && forall n :: n in files && n !in d.files ==> cut && n != "" && n !in Listed(d) && CutOff(n, registered)
  }

  // No file that is not a listed log has the name that a cut may leave of one of these.
  ghost predicate PartsAreListed(files: set<Name>, listed: seq<Name>, names: seq<Name>) {
    forall n :: n in files && n != "" && CutOff(n, names) ==> n in listed
  }

  lemma AllFilesAre(d: Disk, files: set<Name>, registered: seq<Name>, cut: bool)
    requires FilesAre(d, files, registered, cut) && (cut ==> PartsAreListed(files, Listed(d), registered))
    ensures d.files == files
  {
  }

  // While the register is being written a crash may leave any part of a name in it.
  lemma CutRegister(d: Disk, names: seq<Name>, n: Name, power: bool) returns (left: Disk)
    requires AreNames(names) && d.register == Some(Content(Text(names), Buffered, 0))
    requires d.index == Some(Synced(TextOf(d.index))) && Rests(d.temp)
    requires n != "" && CutOff(n, names) && n !in Listed(d)
    ensures Crash(d, left, power) && n in Found(left) && n !in Restart(left).files
  {
    var text := CutFound(names, n);
    var level := if power then Durable else Written;
    var temp := d.temp;
    if d.temp.Some? && d.temp.value.level != Durable {
      AllIsLeft(d.temp.value, power);
      temp := Some(Content(d.temp.value.text, level, if power then 0 else d.temp.value.under));
    }
    left := Disk(d.files, d.index, temp, Some(Content(text, level, 0)));
  }

  /******* A crash in the middle of a restart *******/

  // How many of the files found are dealt with after r steps.
  function Handled(found: seq<Name>, r: nat): (n: nat)
    ensures n <= |found|
  {
    if r <= 2 then 0 else if r <= 2 + |found| then r - 2 else |found|
  }

  // The disk after r steps of a restart.
  ghost predicate StartAt(d: Disk, found: seq<Name>, r: nat, s: Disk)
    requires r <= 3 + |found|
  {
    var list := Lines(TextOf(Source(d)));
    && s.files == Spared(d.files, found[..Handled(found, r)], list)
    && s.index == (if r == 0 then d.index else if r == 1 then Source(d) else Some(Synced(TextOf(Source(d)))))
    && s.temp == (if r > 0 && d.index.None? then None else d.temp)
    && s.register == if r == 3 + |found| then None else d.register
  }

  lemma StartStep(d: Disk, found: seq<Name>, r: nat, s: Disk)
    requires r < 3 + |found| && StartAt(d, found, r, s)
    ensures StartAt(d, found, r + 1, Do(s, RestartActions(found)[r]))
  {
    if 2 <= r < 2 + |found| {
      StartDeletes(d, found, r, s);
    }
  }

  lemma StartDeletes(d: Disk, found: seq<Name>, r: nat, s: Disk)
    requires 2 <= r < 2 + |found| && StartAt(d, found, r, s)
    ensures RestartActions(found)[r] == DeleteUnlisted(found[r - 2])
    ensures StartAt(d, found, r + 1, Do(s, DeleteUnlisted(found[r - 2])))
  {
    var i, list := r - 2, Listed(s);
    SparedNext(d.files, found, i, list);
    assert Do(s, DeleteUnlisted(found[i])) == s.(files := Spared(d.files, found[..i + 1], list));
  }

  lemma SparedNext(files: set<Name>, found: seq<Name>, i: nat, list: seq<Name>)
    requires i < |found|
    ensures Spared(files, found[..i + 1], list)
      == if found[i] in list then Spared(files, found[..i], list) else Spared(files, found[..i], list) - {found[i]}
  {
    assert found[..i + 1] == found[..i] + [found[i]];
  }

  // Deleting is complete if it is done again.
  lemma SparedAgain(files: set<Name>, found: seq<Name>, i: nat, list: seq<Name>)
    requires i <= |found|
    ensures Spared(Spared(files, found[..i], list), found, list) == Spared(files, found, list)
    ensures Spared(files, found[..|found|], list) == Spared(files, found, list)
    ensures Spared(files, found[..0], list) == files && Spared(files, [], list) == files
  {
  }

  lemma {:induction false} StartSteps(d: Disk, found: seq<Name>, r: nat)
    requires r <= 3 + |found|
    ensures StartAt(d, found, r, After(d, RestartActions(found)[..r]))
  {
    if r == 0 {
      SparedAgain(d.files, found, 0, Lines(TextOf(Source(d))));
    } else {
      var actions := RestartActions(found);
      StartSteps(d, found, r - 1);
      assert actions[..r][..r - 1] == actions[..r - 1];
      StartStep(d, found, r - 1, After(d, actions[..r - 1]));
    }
  }

  // The steps of a restart that is not interrupted.
  lemma StartCompletes(d: Disk)
    ensures After(d, RestartActions(Found(d))) == Restart(d)
  {
    var actions := RestartActions(Found(d));
    StartSteps(d, Found(d), |actions|);
    assert actions[..|actions|] == actions;
    SparedAgain(d.files, Found(d), 0, Lines(TextOf(Source(d))));
  }

  // What a start reads as the index is out of reach of a crash after r of its steps.
  predicate Held(d: Disk, r: nat, power: bool) {
    !power || r >= 2 || TextOf(Source(d)) == "" || Source(d).value.level == Durable
  }

  /**
   The index is not lost in a crash of the restart if and only if the server dies, or the restart
   has synced it, or it was on disk before.
   */
  lemma RestartUnderPowerFailure(d: Disk, r: nat, power: bool)
    requires Rests(d.index) && Rests(d.temp) && Rests(d.register) && r <= 3 + |Found(d)|
    ensures
      (forall left :: Crash(After(d, RestartActions(Found(d))[..r]), left, power) ==>
        Restart(left).index == Restart(d).index)
      <==> Held(d, r, power)
  {
    if Held(d, r, power) {
      forall left | Crash(After(d, RestartActions(Found(d))[..r]), left, power)
        ensures Restart(left).index == Restart(d).index
      {
        StartCrash(d, r, left, power);
      }
    } else {
      StartSteps(d, Found(d), r);
      var left := IndexIsLost(After(d, RestartActions(Found(d))[..r]));
    }
  }

  // The index as it was before it was written, or nothing of it.
  lemma IndexIsLost(s: Disk) returns (left: Disk)
    requires Rests(s.index) && Rests(s.temp) && Rests(s.register)
    requires TextOf(Source(s)) != "" && Source(s).value.level != Durable
    ensures Crash(s, left, true) && TextOf(Source(left)) != TextOf(Source(s))
  {
    var c := Source(s).value;
    var other := seq(c.under, k requires 0 <= k < c.under => if c.text[k] == 'a' then 'b' else 'a');
    assert |other| < |c.text| || other[0] != c.text[0];
    var gone := Some(Synced(other));
    left := Disk(s.files, if s.index.Some? then gone else None, if s.index.Some? then Fallen(s.temp) else gone,
                 Fallen(s.register));
  }

  // A file after a power failure, with nothing of a write that it could reach.
  function Fallen(c: Option<Content>): (left: Option<Content>)
    ensures Rests(c) ==> Leaves(c, left, true)
  {
    match c
    case None => None
    case Some(c) => if c.level == Durable then Some(c) else Some(Synced(seq(c.under, k => 'a')))
  }

  // What a crash of a restart leaves of the files.
  lemma StartCrash(d: Disk, r: nat, left: Disk, power: bool)
    requires Rests(d.index) && Rests(d.temp) && Rests(d.register) && r <= 3 + |Found(d)|
    requires Held(d, r, power) && Crash(After(d, RestartActions(Found(d))[..r]), left, power)
    ensures left.files == Spared(d.files, Found(d)[..Handled(Found(d), r)], Lines(TextOf(Source(d))))
    ensures TextOf(Source(left)) == TextOf(Source(d))
    ensures Rests(left.index) && Rests(left.temp) && Rests(left.register)
    ensures |TextOf(left.temp)| <= |TextOf(d.temp)| && Restart(left).temp.Some? == Restart(d).temp.Some?
    ensures Restart(d).temp.Some? && Safe(d.temp.value, power) ==> TextOf(left.temp) == TextOf(d.temp)
    ensures r < 3 + |Found(d)| && d.register.Some? && Safe(d.register.value, power) ==>
      left.register == d.register
    ensures r == 3 + |Found(d)| || d.register == None ==> left.register == None
  {
    StartSteps(d, Found(d), r);
    StartLeaves(d, r, After(d, RestartActions(Found(d))[..r]), left, power);
  }

  lemma StartLeaves(d: Disk, r: nat, s: Disk, left: Disk, power: bool)
    requires Rests(d.index) && Rests(d.temp) && Rests(d.register) && r <= 3 + |Found(d)|
    requires Held(d, r, power) && StartAt(d, Found(d), r, s) && Crash(s, left, power)
    ensures left.files == Spared(d.files, Found(d)[..Handled(Found(d), r)], Lines(TextOf(Source(d))))
    ensures TextOf(Source(left)) == TextOf(Source(d))
    ensures Rests(left.index) && Rests(left.temp) && Rests(left.register)
    ensures |TextOf(left.temp)| <= |TextOf(d.temp)| && Restart(left).temp.Some? == Restart(d).temp.Some?
    ensures Restart(d).temp.Some? && Safe(d.temp.value, power) ==> TextOf(left.temp) == TextOf(d.temp)
    ensures r < 3 + |Found(d)| && d.register.Some? && Safe(d.register.value, power) ==>
      left.register == d.register
    ensures r == 3 + |Found(d)| || d.register == None ==> left.register == None
  {
  }

  /**
   A restart that crashes at any step is completed by the next one, if the index is not lost and
   what the register says was out of reach of the crash. A temporary index left over stays as it
   is, if that was out of reach too.
   */
  lemma RestartAgain(d: Disk, r: nat, left: Disk, power: bool)
    requires Rests(d.index) && Rests(d.temp) && Rests(d.register) && r <= 3 + |Found(d)|
    requires Held(d, r, power) && (d.register.Some? ==> Safe(d.register.value, power))
    requires Crash(After(d, RestartActions(Found(d))[..r]), left, power)
    ensures Restart(left).(temp := None) == Restart(d).(temp := None)
    ensures Restart(d).temp.Some? == Restart(left).temp.Some?
    ensures Restart(d).temp.Some? && Safe(d.temp.value, power) ==> TextOf(Restart(left).temp) == TextOf(Restart(d).temp)
  {
    StartCrash(d, r, left, power);
    SparedAgain(d.files, Found(d), Handled(Found(d), r), Lines(TextOf(Source(d))));
  }

  /******* Creating *******/

  // The disk after k steps of a creation, whatever is left over being shorter than the new index.
  ghost predicate CreateAt(d0: Disk, listed: seq<Name>, name: Name, k: nat, d: Disk) {
    var new', leftover := Text(listed + [name]), TextOf(d0.temp);
    && d.files == (if k <= 3 then d0.files else d0.files + {name})
    && d.index == (if k <= 8 then Some(Synced(Text(listed))) else if k == 9 then None else Some(Synced(new')))
    && d.temp == (
      if k <= 4 then d0.temp
      else if k == 5 then Some(if d0.temp.Some? then d0.temp.value else Synced(""))
      else if k <= 7 then Some(Content(new', if k == 6 then Buffered else Written, |leftover|))
      else if k <= 9 then Some(Synced(new'))
      else None)
    && d.register == (
      if k == 0 || k == 12 then None
      else if k == 1 then Some(Synced(""))
      else if k == 2 then Some(Content(Text([name]), Buffered, 0))
      else Some(Synced(Text([name]))))
  }

  lemma CreateStep(d0: Disk, listed: seq<Name>, name: Name, longest: nat, k: nat, d: Disk)
    requires Startable(d0, listed, longest) && longest <= |name|
    requires k < 12 && CreateAt(d0, listed, name, k, d)
    ensures CreateAt(d0, listed, name, k + 1, Do(d, CreateActions(listed, name)[k]))
  {
    NewLength(listed, name);
  }

  lemma NewLength(listed: seq<Name>, name: Name)
    ensures |Text(listed + [name])| == |Text(listed)| + |name| + 1
    ensures Text([name]) == name + "\n"
  {
    TextConcat(listed, [name]);
    assert Text([name]) == name + "\n" + Text([]);
  }

  lemma {:induction false} CreateSteps(d0: Disk, listed: seq<Name>, name: Name, longest: nat, k: nat)
    requires Startable(d0, listed, longest) && longest <= |name| && k <= 12
    ensures CreateAt(d0, listed, name, k, After(d0, CreateActions(listed, name)[..k]))
  {
    if k > 0 {
      var actions := CreateActions(listed, name);
      CreateSteps(d0, listed, name, longest, k - 1);
      assert actions[..k][..k - 1] == actions[..k - 1];
      CreateStep(d0, listed, name, longest, k - 1, After(d0, actions[..k - 1]));
    }
  }

  // A creation that is not interrupted adds the file, and leaves nothing over.
  lemma CreateCompletes(d0: Disk, listed: seq<Name>, name: Name, longest: nat)
    requires Startable(d0, listed, longest) && longest <= |name| && IsName(name) && name !in d0.files
    ensures Clean(After(d0, CreateActions(listed, name)), listed + [name])
    ensures After(d0, CreateActions(listed, name)).files == d0.files + {name}
  {
    CreateSteps(d0, listed, name, longest, 12);
    assert CreateActions(listed, name)[..12] == CreateActions(listed, name);
  }

  // What a crash of a creation leaves of the three files.
  lemma CreateCrash(
    d0: Disk, listed: seq<Name>, name: Name, longest: nat, k: nat, left: Disk, power: bool)
    requires Startable(d0, listed, longest) && longest <= |name| && IsName(name) && k <= 12
    requires Crash(After(d0, CreateActions(listed, name)[..k]), left, power)
    ensures left.files == if k <= 3 then d0.files else d0.files + {name}
    ensures TextOf(Source(left)) == Text(if k <= 8 then listed else listed + [name])
    ensures k > 8 ==> Restart(left).temp == None
    ensures Rests(left.index) && Rests(left.register)
    ensures Rests(left.temp) && |TextOf(left.temp)| <= |Text(listed + [name])|
    ensures TextOf(left.register) <= Text([name])
    ensures 3 <= k < 12 ==> left.register == Some(Synced(Text([name])))
    ensures k < 2 || k == 12 ==> TextOf(left.register) == ""
  {
    CreateSteps(d0, listed, name, longest, k);
    NewLength(listed, name);
  }

  // What a reader finds in a register that a crash may have cut off.
  ghost predicate Registers(found: seq<Name>, names: seq<Name>, cut: bool) {
    && (forall n :: n in found ==> n in names || (cut && n != "" && CutOff(n, names)))
    && (!cut ==> found == names || found == [])
  }

  lemma ReadRegister(text: string, names: seq<Name>, cut: bool)
    requires AreNames(names) && text <= Text(names)
    requires !cut ==> text == "" || text == Text(names)
    ensures Registers(Lines(text), names, cut)
    ensures text == Text(names) ==> Lines(text) == names
  {
    LinesOfText(names);
    if cut {
      CutText(names, text);
    }
  }

  // What a restart makes of it.
  lemma CreatedRestart(d0: Disk, name: Name, left: Disk, isNew: bool, cut: bool, found: seq<Name>, list: seq<Name>)
    requires found == Found(left) && list == Listed(Restart(left))
    requires Registers(found, [name], cut) && name !in d0.files && (isNew <==> name in list)
    requires forall n :: n in list ==> n == name || n in d0.files
    requires left.files == d0.files || left.files == d0.files + {name}
    requires isNew ==> left.files == d0.files + {name}
    requires !isNew && name in left.files ==> found == [name]
    ensures FilesAre(Restart(left), if isNew then d0.files + {name} else d0.files, [name], cut)
    ensures Consistent(Restart(left), [name])
  {
    var d := Restart(left);
    var files := if isNew then d0.files + {name} else d0.files;
    RestartFiles(left, found, list);
    assert name in [name] && (!isNew && name in left.files ==> name in found);
    forall n | n in files && n !in d.files
      ensures cut && n != "" && n !in list && CutOff(n, [name])
    {
      assert n != name && n !in [name];
    }
  }

  lemma CreateRestarts(
    d0: Disk, listed: seq<Name>, name: Name, longest: nat, k: nat, left: Disk, power: bool)
    requires Startable(d0, listed, longest) && longest <= |name| && IsName(name) && name !in d0.files && k <= 12
    requires Crash(After(d0, CreateActions(listed, name)[..k]), left, power)
    ensures Restart(left).index == Some(Synced(Text(if k <= 8 then listed else listed + [name])))
    ensures Listed(Restart(left)) == if k <= 8 then listed else listed + [name]
    ensures FilesAre(Restart(left), if k <= 8 then d0.files else d0.files + {name}, [name], k == 2)
    ensures Consistent(Restart(left), [name])
  {
    CreateCrash(d0, listed, name, longest, k, left, power);
    CreatedList(d0, listed, name, left, k > 8);
    ReadRegister(TextOf(left.register), [name], k == 2);
    CreatedRestart(d0, name, left, k > 8, k == 2, Found(left), Listed(Restart(left)));
  }

  lemma CreateLeftover(
    d0: Disk, listed: seq<Name>, name: Name, longest: nat, k: nat, left: Disk, power: bool)
    requires Startable(d0, listed, longest) && longest <= |name| && IsName(name) && k <= 12
    requires Crash(After(d0, CreateActions(listed, name)[..k]), left, power)
    ensures
      var temp := Restart(left).temp;
      Rests(temp) && (temp.Some? ==> k <= 8 && |TextOf(temp)| <= |Text(listed)| + |name| + 1)
  {
    CreateCrash(d0, listed, name, longest, k, left, power);
    NewLength(listed, name);
  }

  // The names listed are those of files of before, and the new one.
  lemma StillIndexed(d: Disk, listed: seq<Name>)
    requires AreNames(listed) && (forall i, j :: 0 <= i < j < |listed| ==> listed[i] != listed[j])
    requires Listed(d) == listed && d.index == Some(Synced(Text(listed))) && d.register == None
    requires Consistent(d, [])
    ensures Indexed(d, listed)
  {
  }

  /**
   Whatever kind of crash hits the creation of a log file, and at whatever step: the restart
   yields the old list or the new one, with consistent files, and what it leaves over does not
   stand in the way of the next creation.
   */
  lemma CreateIsAtomic(
    d0: Disk, listed: seq<Name>, name: Name, longest: nat, k: nat, left: Disk, power: bool)
    requires Startable(d0, listed, longest) && longest <= |name| && IsName(name) && name !in d0.files && k <= 12
    requires Crash(After(d0, CreateActions(listed, name)[..k]), left, power)
    ensures Listed(Restart(left)) == if k <= 8 then listed else listed + [name]
    ensures FilesAre(Restart(left), if k <= 8 then d0.files else d0.files + {name}, [name], k == 2)
    ensures Consistent(Restart(left), [name])
    ensures Startable(Restart(left), if k <= 8 then listed else listed + [name], |name|)
  {
    CreateRestarts(d0, listed, name, longest, k, left, power);
    CreateLeftover(d0, listed, name, longest, k, left, power);
    StillIndexed(Restart(left), if k <= 8 then listed else listed + [name]);
  }

  /**
   A creation changes no other file, whatever crash hits it: except for a register that a crash has
   cut off while it was being written. Then the restart may delete a file that is not a listed log,
   if and only if there is one whose name is a part of the new one.
   */
  lemma CreateKeepsFiles(d0: Disk, listed: seq<Name>, name: Name, longest: nat, k: nat, power: bool)
    requires Startable(d0, listed, longest) && longest <= |name| && IsName(name) && name !in d0.files && k <= 12
    ensures
      (forall left :: Crash(After(d0, CreateActions(listed, name)[..k]), left, power) ==>
        Restart(left).files == if k <= 8 then d0.files else d0.files + {name})
      <==> k != 2 || PartsAreListed(d0.files, listed, [name])
  {
    var d := After(d0, CreateActions(listed, name)[..k]);
    if k != 2 || PartsAreListed(d0.files, listed, [name]) {
      forall left | Crash(d, left, power)
        ensures Restart(left).files == if k <= 8 then d0.files else d0.files + {name}
      {
        CreateRestarts(d0, listed, name, longest, k, left, power);
        AllFilesAre(Restart(left), if k <= 8 then d0.files else d0.files + {name}, [name], k == 2);
      }
    } else {
      var n :| n in d0.files && n != "" && CutOff(n, [name]) && n !in listed;
      var left := CreateLoses(d0, listed, name, longest, n, power);
    }
  }

  // What a crash has to leave for that: the register cut off behind one character more.
  lemma CreateLoses(
    d0: Disk, listed: seq<Name>, name: Name, longest: nat, n: Name, power: bool) returns (left: Disk)
    requires Startable(d0, listed, longest) && longest <= |name| && IsName(name)
    requires n in d0.files && n != "" && CutOff(n, [name]) && n !in listed
    ensures Crash(After(d0, CreateActions(listed, name)[..2]), left, power) && n !in Restart(left).files
  {
    CreateSteps(d0, listed, name, longest, 2);
    LinesOfText(listed);
    left := CutRegister(After(d0, CreateActions(listed, name)[..2]), [name], n, power);
  }

  lemma CreatedList(d0: Disk, listed: seq<Name>, name: Name, left: Disk, isNew: bool)
    requires Indexed(d0, listed) && IsName(name) && name !in d0.files
    requires TextOf(Restart(left).index) == Text(if isNew then listed + [name] else listed)
    ensures Listed(Restart(left)) == if isNew then listed + [name] else listed
    ensures isNew <==> name in Listed(Restart(left))
    ensures forall n :: n in Listed(Restart(left)) ==> n == name || n in d0.files
  {
    LinesOfText(if isNew then listed + [name] else listed);
  }

  /******* Purging *******/

  function SetOf(names: seq<Name>): set<Name> {
    set n | n in names
  }

  // How many of the purged files are gone after k steps.
  function Deleted(p: nat, k: nat): (n: nat)
    ensures n <= p
  {
    if k <= 9 then 0 else if k <= 9 + p then k - 9 else p
  }

  // The disk after k steps of a purge.
  ghost predicate PurgeAt(d0: Disk, listed: seq<Name>, p: nat, k: nat, d: Disk)
    requires p <= |listed|
  {
    var new' := Text(listed[p..]);
    && d.files == d0.files - SetOf(listed[..Deleted(p, k)])
    && d.index == (
      if k <= 6 then Some(Synced(Text(listed))) else if k == 7 then None
      else if k == 8 then Some(Content(new', Written, 0))
      else Some(Synced(new')))
    && d.temp == (
      if k <= 3 || k >= 8 then None
      else if k == 4 then Some(Synced(""))
      else Some(Content(new', if k == 5 then Buffered else Written, 0)))
    && d.register == (
      if k == 0 || k == 10 + p then None
      else if k == 1 then Some(Synced(""))
      else if k == 2 then Some(Content(Text(listed[..p]), Buffered, 0))
      else Some(Synced(Text(listed[..p]))))
  }

  lemma PurgeStep(d0: Disk, listed: seq<Name>, p: nat, k: nat, d: Disk)
    requires p <= |listed| && k < 10 + p && PurgeAt(d0, listed, p, k, d)
    ensures PurgeAt(d0, listed, p, k + 1, Do(d, PurgeActions(listed, p)[k]))
  {
    if 9 <= k < 9 + p {
      PurgeDeletes(d0, listed, p, k, d);
    }
  }

  lemma PurgeDeletes(d0: Disk, listed: seq<Name>, p: nat, k: nat, d: Disk)
    requires 9 <= k < 9 + p <= 9 + |listed| && PurgeAt(d0, listed, p, k, d)
    ensures PurgeActions(listed, p)[k] == DeleteFile(listed[k - 9])
    ensures PurgeAt(d0, listed, p, k + 1, Do(d, DeleteFile(listed[k - 9])))
  {
    assert listed[..k - 8] == listed[..k - 9] + [listed[k - 9]];
    assert SetOf(listed[..k - 8]) == SetOf(listed[..k - 9]) + {listed[k - 9]};
  }

  lemma {:induction false} PurgeSteps(d0: Disk, listed: seq<Name>, p: nat, k: nat)
    requires Clean(d0, listed) && p <= |listed| && k <= 10 + p
    ensures PurgeAt(d0, listed, p, k, After(d0, PurgeActions(listed, p)[..k]))
  {
    var actions := PurgeActions(listed, p);
    if k == 0 {
      assert SetOf(listed[..0]) == {};
    } else {
      PurgeSteps(d0, listed, p, k - 1);
      assert actions[..k][..k - 1] == actions[..k - 1];
      PurgeStep(d0, listed, p, k - 1, After(d0, actions[..k - 1]));
    }
  }

  lemma DistinctParts(listed: seq<Name>, p: nat, n: Name)
    requires p <= |listed| && forall i, j :: 0 <= i < j < |listed| ==> listed[i] != listed[j]
    ensures n in listed[..p] ==> n !in listed[p..]
    ensures n in listed <==> n in listed[..p] || n in listed[p..]
  {
    assert listed == listed[..p] + listed[p..];
    if n in listed[..p] {
      var i :| 0 <= i < p && listed[i] == n;
      assert forall j :: p <= j < |listed| ==> listed[j] != n;
    }
  }

  // A purge that is not interrupted removes the files, and leaves nothing over.
  lemma PurgeCompletes(d0: Disk, listed: seq<Name>, p: nat)
    requires Clean(d0, listed) && p <= |listed|
    ensures Clean(After(d0, PurgeActions(listed, p)), listed[p..])
    ensures After(d0, PurgeActions(listed, p)).files == d0.files - SetOf(listed[..p])
  {
    var actions := PurgeActions(listed, p);
    PurgeSteps(d0, listed, p, |actions|);
    assert actions[..|actions|] == actions;
    forall n | n in listed[p..]
      ensures n in d0.files - SetOf(listed[..p])
    {
      DistinctParts(listed, p, n);
    }
  }

  // The old index comes back: nothing listed is deleted.
  lemma RestartOld(d0: Disk, left: Disk, listed: seq<Name>, p: nat, cut: bool, found: seq<Name>)
    requires Indexed(d0, listed) && p <= |listed| && left.files == d0.files
    requires found == Found(left) && Registers(found, listed[..p], cut)
    requires Listed(Restart(left)) == listed
    ensures FilesAre(Restart(left), d0.files, listed[..p], cut) && Consistent(Restart(left), listed[..p])
  {
    var d := Restart(left);
    forall n: Name
      ensures n in listed[..p] ==> n in listed
    {
      DistinctParts(listed, p, n);
    }
    assert forall n :: n in d.files <==> n in left.files && !(n in found && n !in listed);
  }

  // The new index comes back: all that was registered is deleted.
  lemma RestartNew(d0: Disk, left: Disk, listed: seq<Name>, p: nat, deleted: nat, found: seq<Name>)
    requires Indexed(d0, listed) && deleted <= p <= |listed|
    requires left.files == d0.files - SetOf(listed[..deleted])
    requires found == Found(left) && (found == listed[..p] || (deleted == p && found == []))
    requires Listed(Restart(left)) == listed[p..]
    ensures Restart(left).files == d0.files - SetOf(listed[..p]) && Consistent(Restart(left), listed[..p])
  {
    var d := Restart(left);
    assert listed[..deleted] == listed[..p][..deleted];
    forall n: Name
      ensures n in listed[..p] ==> n !in listed[p..]
      ensures n in listed[p..] ==> n in listed
    {
      DistinctParts(listed, p, n);
    }
    assert forall n :: n in d.files <==> n in left.files && !(n in found && n !in listed[p..]);
    assert d.files == d0.files - SetOf(listed[..p]);
  }

  // What a crash of a purge leaves, but for what it may take of the new index.
  lemma PurgeCrash(d0: Disk, listed: seq<Name>, p: nat, k: nat, left: Disk, power: bool)
    requires Clean(d0, listed) && p <= |listed| && k <= 10 + p
    requires Crash(After(d0, PurgeActions(listed, p)[..k]), left, power)
    ensures left.files == d0.files - SetOf(listed[..Deleted(p, k)])
    ensures k <= 6 ==> left.index == Some(Synced(Text(listed)))
    ensures k > 6 && (!power || k > 8 || p == |listed|) ==> TextOf(Source(left)) == Text(listed[p..])
    ensures k > 6 ==> Restart(left).temp == None
    ensures Rests(left.index) && Rests(left.register)
    ensures Rests(left.temp) && |TextOf(left.temp)| <= |Text(listed[p..])|
    ensures TextOf(left.register) <= Text(listed[..p])
    ensures 3 <= k < 10 + p ==> left.register == Some(Synced(Text(listed[..p])))
    ensures k < 2 || k == 10 + p ==> TextOf(left.register) == ""
    ensures k == 10 + p ==> left.register == None
  {
    PurgeSteps(d0, listed, p, k);
  }

  lemma TailIsShorter(listed: seq<Name>, p: nat)
    requires p <= |listed|
    ensures |Text(listed[p..])| <= |Text(listed)|
    ensures 0 < p ==> |Text(listed[p..])| < |Text(listed)|
  {
    assert listed == listed[..p] + listed[p..];
    TextConcat(listed[..p], listed[p..]);
  }

  // The old list or the new one, with consistent files.
  ghost predicate Recovered(d0: Disk, listed: seq<Name>, p: nat, d: Disk, cut: bool)
    requires p <= |listed|
  {
    && Consistent(d, listed[..p])
    && ((Listed(d) == listed && FilesAre(d, d0.files, listed[..p], cut))
      || (Listed(d) == listed[p..] && FilesAre(d, d0.files - SetOf(listed[..p]), listed[..p], cut)))
  }

  lemma PurgeRestartsOld(d0: Disk, listed: seq<Name>, p: nat, k: nat, left: Disk, power: bool)
    requires Clean(d0, listed) && p <= |listed| && k <= 6
    requires Crash(After(d0, PurgeActions(listed, p)[..k]), left, power)
    ensures Restart(left).index == Some(Synced(Text(listed))) && Listed(Restart(left)) == listed
    ensures FilesAre(Restart(left), d0.files, listed[..p], k == 2) && Consistent(Restart(left), listed[..p])
  {
    PurgeCrash(d0, listed, p, k, left, power);
    ReadRegister(TextOf(left.register), listed[..p], k == 2);
    LinesOfText(listed);
    assert SetOf(listed[..0]) == {};
    RestartOld(d0, left, listed, p, k == 2, Found(left));
  }

  lemma PurgeRestartsNew(d0: Disk, listed: seq<Name>, p: nat, k: nat, left: Disk, power: bool)
    requires Clean(d0, listed) && p <= |listed| && 6 < k <= 10 + p
    requires Crash(After(d0, PurgeActions(listed, p)[..k]), left, power)
    requires !power || k > 8 || p == |listed|
    ensures Restart(left).index == Some(Synced(Text(listed[p..]))) && Listed(Restart(left)) == listed[p..]
    ensures Restart(left).files == d0.files - SetOf(listed[..p]) && Consistent(Restart(left), listed[..p])
  {
    PurgeCrash(d0, listed, p, k, left, power);
    ReadRegister(TextOf(left.register), listed[..p], false);
    LinesOfText(listed[p..]);
    RestartNew(d0, left, listed, p, Deleted(p, k), Found(left));
  }

  lemma PurgeRestarts(d0: Disk, listed: seq<Name>, p: nat, k: nat, left: Disk, power: bool)
    requires Clean(d0, listed) && p <= |listed| && k <= 10 + p
    requires Crash(After(d0, PurgeActions(listed, p)[..k]), left, power)
    requires !power || k < 7 || k > 8 || p == |listed|
    ensures Restart(left).index == Some(Synced(Text(if k <= 6 then listed else listed[p..])))
    ensures Listed(Restart(left)) == if k <= 6 then listed else listed[p..]
    ensures FilesAre(Restart(left), if k <= 6 then d0.files else d0.files - SetOf(listed[..p]), listed[..p], k == 2)
    ensures Consistent(Restart(left), listed[..p])
  {
    if k <= 6 {
      PurgeRestartsOld(d0, listed, p, k, left, power);
    } else {
      PurgeRestartsNew(d0, listed, p, k, left, power);
    }
  }

  /**
   A purge is hit by a crash at any step but those in which a power failure may cut off the index:
   the restart yields the old list or the new one, no purged file is left behind, and what it
   leaves over does not stand in the way of the next creation.
   */
  lemma PurgeIsAtomic(d0: Disk, listed: seq<Name>, p: nat, k: nat, left: Disk, power: bool)
    requires Clean(d0, listed) && p <= |listed| && k <= 10 + p
    requires Crash(After(d0, PurgeActions(listed, p)[..k]), left, power)
    requires !power || k < 7 || k > 8
    ensures Listed(Restart(left)) == if k <= 6 then listed else listed[p..]
    ensures FilesAre(Restart(left), if k <= 6 then d0.files else d0.files - SetOf(listed[..p]), listed[..p], k == 2)
    ensures Consistent(Restart(left), listed[..p])
    ensures Startable(Restart(left), if k <= 6 then listed else listed[p..], 0)
  {
    PurgeRestarts(d0, listed, p, k, left, power);
    PurgeCrash(d0, listed, p, k, left, power);
    TailIsShorter(listed, p);
    StillIndexed(Restart(left), if k <= 6 then listed else listed[p..]);
  }

  /**
   A purge does not sync the temporary index. After a power failure the list may be cut off, or
   listed files be missing, exactly in the steps between the replacement of the index and the
   next sync.
   */
  lemma PurgeUnderPowerFailure(d0: Disk, listed: seq<Name>, p: nat, k: nat, power: bool)
    requires Clean(d0, listed) && p <= |listed| && k <= 10 + p
    ensures
      (forall left :: Crash(After(d0, PurgeActions(listed, p)[..k]), left, power) ==>
        Recovered(d0, listed, p, Restart(left), k == 2))
      <==> !power || k < 7 || k > 8 || p == |listed|
  {
    PurgeSteps(d0, listed, p, k);
    var d := After(d0, PurgeActions(listed, p)[..k]);
    if !power || k < 7 || k > 8 || p == |listed| {
      forall left | Crash(d, left, power)
        ensures Recovered(d0, listed, p, Restart(left), k == 2)
      {
        PurgeRestarts(d0, listed, p, k, left, power);
      }
    } else {
      var cut := Some(Synced(""));
      var left := if k == 7 then d.(temp := cut) else d.(index := cut);
      assert Crash(d, left, power);
      assert Listed(Restart(left)) == [];
    }
  }

  /**
   So with a purge: of the files that it is not to delete, a restart may delete one if and only if
   the register was being written and the name of one that is not listed is a part of a registered
   name.
   */
  lemma PurgeKeepsFiles(d0: Disk, listed: seq<Name>, p: nat, k: nat, power: bool)
    requires Clean(d0, listed) && p <= |listed| && k <= 10 + p
    requires !power || k < 7 || k > 8 || p == |listed|
    ensures
      (forall left :: Crash(After(d0, PurgeActions(listed, p)[..k]), left, power) ==>
        Restart(left).files == if k <= 6 then d0.files else d0.files - SetOf(listed[..p]))
      <==> k != 2 || PartsAreListed(d0.files, listed, listed[..p])
  {
    var d := After(d0, PurgeActions(listed, p)[..k]);
    if k != 2 || PartsAreListed(d0.files, listed, listed[..p]) {
      forall left | Crash(d, left, power)
        ensures Restart(left).files == if k <= 6 then d0.files else d0.files - SetOf(listed[..p])
      {
        PurgeRestarts(d0, listed, p, k, left, power);
        AllFilesAre(Restart(left), if k <= 6 then d0.files else d0.files - SetOf(listed[..p]), listed[..p], k == 2);
      }
    } else {
      var n :| n in d0.files && n != "" && CutOff(n, listed[..p]) && n !in listed;
      var left := PurgeLoses(d0, listed, p, n, power);
    }
  }

  // What a crash has to leave for that.
  lemma PurgeLoses(d0: Disk, listed: seq<Name>, p: nat, n: Name, power: bool) returns (left: Disk)
    requires Clean(d0, listed) && p <= |listed|
    requires n in d0.files && n != "" && CutOff(n, listed[..p]) && n !in listed
    ensures Crash(After(d0, PurgeActions(listed, p)[..2]), left, power) && n !in Restart(left).files
  {
    PurgeSteps(d0, listed, p, 2);
    LinesOfText(listed);
    left := CutRegister(After(d0, PurgeActions(listed, p)[..2]), listed[..p], n, power);
  }

  // A file of the directory that may be lost with the first log.
  lemma ForeignFileLost(power: bool)
    ensures
      var d0 := Disk({"log"}, Some(Synced("")), None, None);
      && Clean(d0, [])
      && exists left ::
        Crash(After(d0, CreateActions([], "log.000001")[..2]), left, power) && "log" !in Restart(left).files
  {
    var d0 := Disk({"log"}, Some(Synced("")), None, None);
    var name := "log.000001";
    assert [name][0][..3] == "log";
    var left := CreateLoses(d0, [], name, 0, "log", power);
  }

  /******* A temporary index left over from a crash *******/

  lemma OverlayExact(text: string, leftover: string)
    ensures Overlay(text, leftover) == text <==> |leftover| <= |text|
  {
    if |leftover| > |text| {
      assert |Overlay(text, leftover)| == |leftover|;
    }
  }

  // An operation fills the temporary index in step `fill` and makes it the index in step `rename`.
  ghost predicate OverlayAt(text: string, leftover: string, fill: nat, rename: nat, k: nat, d: Disk) {
    && (k <= fill ==> TextOf(d.temp) == leftover)
    && (fill < k <= rename ==> TextOf(d.temp) == Overlay(text, leftover))
    && (k > rename ==> TextOf(d.index) == Overlay(text, leftover))
  }

  lemma OverlayStep(text: string, leftover: string, fill: nat, rename: nat, k: nat, d: Disk, a: Action)
    requires fill < rename && OverlayAt(text, leftover, fill, rename, k, d)
    requires (if k == fill then a == FillTemp(text) else !a.FillTemp?) && (a.RenameTemp? <==> k == rename)
    requires !a.RestoreIndex? && (k > rename ==> !a.DeleteIndex?)
    ensures OverlayAt(text, leftover, fill, rename, k + 1, Do(d, a))
  {
  }

  lemma {:induction false} OverlaySteps(d0: Disk, actions: seq<Action>, text: string, fill: nat, rename: nat, k: nat)
    requires fill < rename < |actions| && k <= |actions|
    requires forall i :: 0 <= i < |actions| ==>
      && (if i == fill then actions[i] == FillTemp(text) else !actions[i].FillTemp?)
      && (actions[i].RenameTemp? <==> i == rename)
      && !actions[i].RestoreIndex? && (i > rename ==> !actions[i].DeleteIndex?)
    ensures OverlayAt(text, TextOf(d0.temp), fill, rename, k, After(d0, actions[..k]))
  {
    if k > 0 {
      var before := actions[..k - 1];
      OverlaySteps(d0, actions, text, fill, rename, k - 1);
      assert actions[..k][..k - 1] == before;
      OverlayStep(text, TextOf(d0.temp), fill, rename, k - 1, After(d0, before), actions[k - 1]);
    }
  }

  /**
   Opening a log writes the right list over a temporary index left over if and only if that is
   not longer; and so does a purge.
   */
  lemma CreateOverLeftover(d0: Disk, listed: seq<Name>, name: Name)
    ensures TextOf(After(d0, CreateActions(listed, name)).index) == Text(listed + [name])
      <==> |TextOf(d0.temp)| <= |Text(listed + [name])|
  {
    var actions := CreateActions(listed, name);
    OverlaySteps(d0, actions, Text(listed + [name]), 5, 9, 12);
    assert actions[..12] == actions;
    OverlayExact(Text(listed + [name]), TextOf(d0.temp));
  }

  lemma PurgeOverLeftover(d0: Disk, listed: seq<Name>, p: nat)
    requires p <= |listed|
    ensures TextOf(After(d0, PurgeActions(listed, p)).index) == Text(listed[p..])
      <==> |TextOf(d0.temp)| <= |Text(listed[p..])|
  {
    var actions := PurgeActions(listed, p);
    OverlaySteps(d0, actions, Text(listed[p..]), 4, 7, |actions|);
    assert actions[..|actions|] == actions;
    OverlayExact(Text(listed[p..]), TextOf(d0.temp));
  }

  /**
   A start opens a log before anything is purged. After a crash just before the index is replaced
   that goes well if and only if the new name is not shorter than the one that was lost.
   */
  lemma CreateAfterCrash(d0: Disk, listed: seq<Name>, name: Name, left: Disk, again: Name, power: bool)
    requires Clean(d0, listed) && IsName(name)
    requires Crash(After(d0, CreateActions(listed, name)[..8]), left, power)
    ensures TextOf(After(Restart(left), CreateActions(listed, again)).index) == Text(listed + [again])
      <==> |name| <= |again|
  {
    CreateSteps(d0, listed, name, 0, 8);
    CreateOverLeftover(Restart(left), listed, again);
    NewLength(listed, name);
    NewLength(listed, again);
  }

  /******* The life of a server *******/

  // What happens to the index: operations, starts, and crashes in the middle of them with what
  // they left.
  datatype Deed =
    | Create(name: Name)
    | Purge(p: nat)
    | Start
    | CrashInCreate(name: Name, k: nat, left: Disk, power: bool)
    | CrashInPurge(p: nat, k: nat, left: Disk, power: bool)
    | CrashInStart(r: nat, left: Disk, power: bool)

  // Down after a crash, started, or up once a log has been opened since the start.
  datatype Phase = Down | Started | Up

  // `longest` is the greatest length of a name so far.
  datatype Life = Life(disk: Disk, listed: seq<Name>, phase: Phase, longest: nat)

  // Log files are numbered upwards, so names do not get shorter. A start opens a log before
  // anything else. A power failure does not hit the unsynced index of a purge.
  ghost predicate MayDo(l: Life, deed: Deed) {
    match deed
    case Create(name) => l.phase != Down && IsName(name) && name !in l.disk.files && l.longest <= |name|
    case Purge(p) => l.phase == Up && p <= |l.listed|
    case Start => l.phase == Down
    case CrashInCreate(name, k, left, power) =>
      && l.phase != Down && IsName(name) && name !in l.disk.files && l.longest <= |name| && k <= 12
      && Crash(After(l.disk, CreateActions(l.listed, name)[..k]), left, power)
    case CrashInPurge(p, k, left, power) =>
      && l.phase == Up && p <= |l.listed| && k <= 10 + p && (!power || k < 7 || k > 8)
      && Crash(After(l.disk, PurgeActions(l.listed, p)[..k]), left, power)
    case CrashInStart(r, left, power) =>
      && l.phase == Down && r <= 3 + |Found(l.disk)| && Held(l.disk, r, power)
      && Crash(After(l.disk, RestartActions(Found(l.disk))[..r]), left, power)
  }

  function Done(l: Life, deed: Deed): Life
    requires match deed
      case Purge(p) => p <= |l.listed|
      case CrashInPurge(p, _, _, _) => p <= |l.listed|
      case _ => true
  {
    match deed
    case Create(name) => Life(After(l.disk, CreateActions(l.listed, name)), l.listed + [name], Up, |name|)
    case Purge(p) => Life(After(l.disk, PurgeActions(l.listed, p)), l.listed[p..], Up, l.longest)
    case Start => Life(After(l.disk, RestartActions(Found(l.disk))), l.listed, Started, l.longest)
    case CrashInCreate(name, k, left, _) =>
      Life(left, if k <= 8 then l.listed else l.listed + [name], Down, |name|)
    case CrashInPurge(p, k, left, _) =>
      Life(left, if k <= 6 then l.listed else l.listed[p..], Down, l.longest)
    case CrashInStart(_, left, _) => l.(disk := left)
  }

  ghost predicate Lives(l0: Life, deeds: seq<Deed>, l: Life)
    decreases |deeds|
  {
    if deeds == [] then l == l0
    else
      var n := |deeds| - 1;
      exists m :: Lives(l0, deeds[..n], m) && MayDo(m, deeds[n]) && l == Done(m, deeds[n])
  }

  // A file is listed, or another file of the directory, or certain to be deleted by the restart.
  ghost predicate Accounted(d: Disk, listed: seq<Name>, others: set<Name>) {
    forall n :: n in d.files ==>
      n in listed || n in others || (n in Found(d) && d.register.value.level == Durable)
  }

  // What a crash leaves for the restart.
  ghost predicate Startworthy(d: Disk, listed: seq<Name>, longest: nat) {
    && AreLogs(d.files, listed) && TextOf(Source(d)) == Text(listed)
    && Rests(d.index) && Rests(d.temp) && |TextOf(d.temp)| <= |Text(listed)| + longest + 1
    && Rests(d.register)
  }

  ghost predicate Healthy(l: Life, others: set<Name>) {
    && Accounted(l.disk, l.listed, others)
    && (if l.phase == Down then Startworthy(l.disk, l.listed, l.longest)
      else Startable(l.disk, l.listed, l.longest) && (l.phase == Up ==> l.disk.temp == None))
  }

  lemma AfterStart(d: Disk, listed: seq<Name>, longest: nat, others: set<Name>)
    requires Startworthy(d, listed, longest) && Accounted(d, listed, others)
    ensures Startable(Restart(d), listed, longest) && Accounted(Restart(d), listed, others)
  {
    LinesOfText(listed);
  }

  // The new file is listed, or certain to be deleted, or not there yet.
  lemma CreateAccounts(d0: Disk, listed: seq<Name>, name: Name, others: set<Name>, left: Disk, list: seq<Name>)
    requires Accounted(d0, listed, others) && d0.register == None && IsName(name)
    requires left.files == d0.files ||
      (left.files == d0.files + {name} && (list == listed + [name] || left.register == Some(Synced(Text([name])))))
    requires list == listed || list == listed + [name]
    ensures Accounted(left, list, others)
  {
    LinesOfText([name]);
  }

  lemma CreateFalls(
    d0: Disk, listed: seq<Name>, name: Name, longest: nat, others: set<Name>, k: nat, left: Disk, power: bool)
    requires Startable(d0, listed, longest) && longest <= |name| && IsName(name) && name !in d0.files && k <= 12
    requires Accounted(d0, listed, others)
    requires Crash(After(d0, CreateActions(listed, name)[..k]), left, power)
    ensures Startworthy(left, if k <= 8 then listed else listed + [name], |name|)
    ensures Accounted(left, if k <= 8 then listed else listed + [name], others)
  {
    CreateCrash(d0, listed, name, longest, k, left, power);
    NewLength(listed, name);
    var list := if k <= 8 then listed else listed + [name];
    CreateAccounts(d0, listed, name, others, left, list);
    AllAreFiles(d0, listed, name, left.files, list);
  }

  lemma AllAreFiles(d0: Disk, listed: seq<Name>, name: Name, files: set<Name>, list: seq<Name>)
    requires Indexed(d0, listed) && IsName(name) && name !in d0.files
    requires (list == listed && files >= d0.files) || (list == listed + [name] && files == d0.files + {name})
    ensures AreLogs(files, list)
  {
  }

  // A purged file is gone, or certain to be deleted.
  lemma PurgeAccounts(d0: Disk, listed: seq<Name>, others: set<Name>, p: nat, gone: nat, left: Disk, list: seq<Name>)
    requires Accounted(d0, listed, others) && d0.register == None && gone <= p <= |listed|
    requires left.files == d0.files - SetOf(listed[..gone])
    requires list == listed || (list == listed[p..] &&
      (gone == p || left.register == Some(Synced(Text(listed[..p])))))
    requires Lines(Text(listed[..p])) == listed[..p]
    ensures Accounted(left, list, others)
  {
    assert listed == listed[..p] + listed[p..];
  }

  lemma PurgeFalls(
    d0: Disk, listed: seq<Name>, longest: nat, others: set<Name>, p: nat, k: nat, left: Disk, power: bool)
    requires Clean(d0, listed) && p <= |listed| && k <= 10 + p && (!power || k < 7 || k > 8)
    requires Accounted(d0, listed, others)
    requires Crash(After(d0, PurgeActions(listed, p)[..k]), left, power)
    ensures Startworthy(left, if k <= 6 then listed else listed[p..], longest)
    ensures Accounted(left, if k <= 6 then listed else listed[p..], others)
  {
    PurgeCrash(d0, listed, p, k, left, power);
    TailIsShorter(listed, p);
    LinesOfText(listed[..p]);
    PurgeAccounts(d0, listed, others, p, Deleted(p, k), left, if k <= 6 then listed else listed[p..]);
    PurgeLeavesListed(d0, listed, p, Deleted(p, k), left.files);
  }

  lemma PurgeLeavesListed(d0: Disk, listed: seq<Name>, p: nat, gone: nat, files: set<Name>)
    requires Indexed(d0, listed) && gone <= p <= |listed|
    requires files == d0.files - SetOf(listed[..gone])
    ensures AreLogs(files, listed[p..]) && (gone == 0 ==> AreLogs(files, listed))
  {
    assert listed[..gone] == listed[..p][..gone];
    forall n | n in listed[p..]
      ensures n in files
    {
      DistinctParts(listed, p, n);
    }
  }

  lemma StartFalls(
    d: Disk, listed: seq<Name>, longest: nat, others: set<Name>, r: nat, left: Disk, power: bool)
    requires Startworthy(d, listed, longest) && Accounted(d, listed, others)
    requires r <= 3 + |Found(d)| && Held(d, r, power)
    requires Crash(After(d, RestartActions(Found(d))[..r]), left, power)
    ensures Startworthy(left, listed, longest) && Accounted(left, listed, others)
  {
    StartCrash(d, r, left, power);
    LinesOfText(listed);
    SparedAgain(d.files, Found(d), 0, listed);
  }

  lemma StaysHealthy(l: Life, deed: Deed, others: set<Name>)
    requires Healthy(l, others) && MayDo(l, deed)
    ensures Healthy(Done(l, deed), others)
  {
    match deed {
      case Create(name) => CreateCompletes(l.disk, l.listed, name, l.longest);
      case Purge(p) =>
        PurgeCompletes(l.disk, l.listed, p);
        assert l.listed == l.listed[..p] + l.listed[p..];
      case Start =>
        StartCompletes(l.disk);
        AfterStart(l.disk, l.listed, l.longest, others);
      case CrashInCreate(name, k, left, power) =>
        CreateFalls(l.disk, l.listed, name, l.longest, others, k, left, power);
      case CrashInPurge(p, k, left, power) =>
        PurgeFalls(l.disk, l.listed, l.longest, others, p, k, left, power);
      case CrashInStart(r, left, power) =>
        StartFalls(l.disk, l.listed, l.longest, others, r, left, power);
    }
  }

  /**
   Through any number of operations, crashes and restarts, also crashes of restarts: the index is,
   or the next restart makes it, the list it should be, all its files exist, and no log file is
   left that is not listed. What a crash leaves over never gets into the list.
   */
  lemma IndexSurvives(l0: Life, deeds: seq<Deed>, l: Life)
    requires Clean(l0.disk, l0.listed) && l0.phase == Up && Lives(l0, deeds, l)
    ensures
      var d := if l.phase == Down then Restart(l.disk) else l.disk;
      && Listed(d) == l.listed && (forall n :: n in l.listed ==> n in d.files)
      && d.files <= l0.disk.files - SetOf(l0.listed) + SetOf(l.listed)
      && (l.phase == Up ==> d.temp == None)
  {
    var others := l0.disk.files - SetOf(l0.listed);
    LivesHealthy(l0, deeds, l, others);
    if l.phase == Down {
      AfterStart(l.disk, l.listed, l.longest, others);
    }
    LinesOfText(l.listed);
  }

  lemma {:induction false} LivesHealthy(l0: Life, deeds: seq<Deed>, l: Life, others: set<Name>)
    requires Healthy(l0, others) && Lives(l0, deeds, l)
    ensures Healthy(l, others)
    decreases |deeds|
  {
    if deeds != [] {
      var n := |deeds| - 1;
      var m :| Lives(l0, deeds[..n], m) && MayDo(m, deeds[n]) && l == Done(m, deeds[n]);
      LivesHealthy(l0, deeds[..n], m, others);
      StaysHealthy(m, deeds[n], others);
    }
  }

  /******* The procedures *******/

  // The k-th file is one that a purge up to the given log is meant for.
  predicate ToPurge(listed: seq<Name>, toLog: Name, included: bool, k: nat)
    requires k < |listed|
  {
    toLog !in listed[..k] && (listed[k] == toLog ==> included)
  }

  class IndexedLogs {
    var disk: Disk
    // The log file being written, and the files that some thread reads.
    var active: Name
    var inUse: set<Name>

    constructor (disk: Disk, active: Name, inUse: set<Name>)
      ensures this.disk == disk && this.active == active && this.inUse == inUse
    {
      this.disk, this.active, this.inUse := disk, active, inUse;
    }

    // Carries the steps out one after the other.
    method Perform(actions: seq<Action>)
      modifies this`disk
      ensures disk == After(old(disk), actions)
    {
      for i := 0 to |actions|
        invariant disk == After(old(disk), actions[..i])
      {
        assert actions[..i + 1][..i] == actions[..i];
        disk := Do(disk, actions[i]);
      }
      assert actions[..|actions|] == actions;
    }

    // The first p of the listed files can be purged and are to be, and no more of them: they lie in
    // front of the given log, or end with it if `included`, and none is active or in use; but the
    // next one is, or lies behind.
    predicate Purgeable(listed: seq<Name>, toLog: Name, included: bool, p: nat)
      reads this`active, this`inUse
    {
      && p <= |listed|
      && (forall k :: 0 <= k < p ==> listed[k] != active && listed[k] !in inUse)
      && (forall k :: 0 <= k < p ==> ToPurge(listed, toLog, included, k))
      && (p < |listed| ==> listed[p] == active || listed[p] in inUse || !ToPurge(listed, toLog, included, p))
    }

    // How many of the listed files a purge up to the given one may take.
    method FilesToPurge(listed: seq<Name>, toLog: Name, included: bool) returns (p: nat)
      requires toLog in listed && forall i, j :: 0 <= i < j < |listed| ==> listed[i] != listed[j]
      ensures Purgeable(listed, toLog, included, p)
    {
      p := 0;
      var exitLoop := false;
      while listed[p] != toLog || included
        invariant p < |listed| && toLog !in listed[..p]
        invariant forall k :: 0 <= k < p ==> listed[k] != active && listed[k] !in inUse && listed[k] != toLog
        decreases |listed| - p
      {
        exitLoop := listed[p] == toLog;
        if listed[p] == active {
          break;
        }
        if listed[p] in inUse {
          break;
        }
        p := p + 1;
        if p == |listed| || exitLoop {
          break;
        }
        assert listed[..p] == listed[..p - 1] + [listed[p - 1]];
      }
    }

    // Removes the files from the index first, from the disk then; None if the log is not listed.
    // What is purged ends before the named log, or with it if `included`; it ends sooner only where
    // a file is active or in use.
    method PurgeLogs(toLog: Name, included: bool) returns (purged: Option<nat>)
      requires disk.index.Some?
      requires forall i, j :: 0 <= i < j < |Listed(disk)| ==> Listed(disk)[i] != Listed(disk)[j]
      modifies this`disk
      ensures purged.None? <==> toLog !in old(Listed(disk))
      ensures purged.None? ==> disk == old(disk)
      ensures purged.Some? ==>
        && Purgeable(old(Listed(disk)), toLog, included, purged.value)
        && disk == After(old(disk), PurgeActions(old(Listed(disk)), purged.value))
    {
      var listed := Listed(disk);
      if toLog !in listed {
        return None;
      }
      var p := FilesToPurge(listed, toLog, included);
      Perform(PurgeActions(listed, p));
      purged := Some(p);
    }

    // Opening the index after a crash.
    method OpenIndexFile()
      modifies this`disk
      ensures disk == Restart(old(disk))
    {
      disk := Do(disk, RestoreIndex);
      disk := Do(disk, SyncIndex);
      PurgeIndexEntry();
      disk := Do(disk, CloseRegister);
    }

    // Deletes every registered file that is not listed.
    method PurgeIndexEntry()
      modifies this`disk
      ensures disk == old(disk).(files := Spared(old(disk).files, Found(old(disk)), Listed(old(disk))))
    {
      var registered := Found(disk);
      SparedAgain(disk.files, registered, 0, Listed(disk));
      for i := 0 to |registered|
        invariant disk == old(disk).(files := Spared(old(disk).files, registered[..i], Listed(old(disk))))
      {
        SparedNext(old(disk).files, registered, i, Listed(disk));
        if registered[i] in disk.files && registered[i] !in Listed(disk) {
          disk := Do(disk, DeleteFile(registered[i]));
        }
      }
    }
  }
}
