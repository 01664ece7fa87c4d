/**
 The file destination (`FileDestination`): appends each rendered line to a log
 file and, when rotation is enabled, shifts a bounded chain of numbered backup
 files before the active file grows past its size limit.

 The file system is modelled by the files that belong to the configured log
 file URL: a map from slot index to file contents, slot 0 being the active
 file and slot k the backup `MakeRotatedFileUrl(url, k)`. The lemma
 `RotatedFileUrlsDistinct` shows that these paths are pairwise distinct, so
 the slots never share a file. A file's size is the length of its contents.
 */
module FileDestinations {
  import opened Optional
  import opened Strings
  import opened Levels
  import opened BaseDestinations

  // ---------------------------------------------------------------------------
  // Names of the rotated files

  /** `pathExtension`: the text after the last "." of the last path component,
      or "" when that component has no ".". */
  function PathExtension(url: string): string {
    var name := FileNameOfFile(url);
    if '.' in name then AfterLast(name, '.') else ""
  }

  /** `deletingPathExtension`: the path without its extension and the "." before it. */
  function DeletingPathExtension(url: string): (r: string)
    ensures '.' in FileNameOfFile(url) ==> url == r + ("." + PathExtension(url)) && '.' !in PathExtension(url)
    ensures '.' !in FileNameOfFile(url) ==> r == url && PathExtension(url) == ""
  {
    var name := FileNameOfFile(url);
    if '.' in name then
      var ext := AfterLast(name, '.');
      AfterLastSplits(name, '.');
      SuffixSplits(url, name, ext);
      url[..|url| - |ext| - 1]
    else url
  }

  /** A split of a path's suffix at a "." is a split of the path. */
  lemma SuffixSplits(url: string, name: string, ext: string)
    requires |name| <= |url| && name == url[|url| - |name|..]
    requires |ext| < |name| && name == name[..|name| - |ext| - 1] + ("." + ext)
    ensures url == url[..|url| - |ext| - 1] + ("." + ext)
  {
    var k := |url| - |ext| - 1;
    assert url[k..] == name[|name| - |ext| - 1..];
    assert name[|name| - |ext| - 1..] == "." + ext;
    assert url == url[..k] + url[k..];
  }

  /** `makeRotatedFileUrl`: the path of backup number `index`, formed by
      appending the extension `"<index>.<ext>"` to the path without its
      extension. */
  function MakeRotatedFileUrl(url: string, index: int): string {
    DeletingPathExtension(url) + ("." + (IntToString(index) + ("." + PathExtension(url))))
  }

  /** The last path component of `stem.ext` is that of `stem` followed by `.ext`. */
  lemma FileNameOfJoined(stem: string, ext: string)
    requires '/' !in ext
    ensures FileNameOfFile(stem + ("." + ext)) == AfterLast(stem, '/') + ("." + ext)
  {
    var tail := "." + ext;
    assert forall i :: 0 <= i < |tail| ==> tail[i] != '/';
    AfterLastAppend(stem, tail, '/');
  }

  /** A path whose last component has an extension splits into the path
      without it and that extension. */
  lemma SplitAtExtension(stem: string, ext: string)
    requires '.' !in ext && '/' !in ext
    ensures PathExtension(stem + ("." + ext)) == ext
    ensures DeletingPathExtension(stem + ("." + ext)) == stem
  {
    var url := stem + ("." + ext);
    var dir := AfterLast(stem, '/');
    FileNameOfJoined(stem, ext);
    var name := FileNameOfFile(url);
    assert name[|dir|] == '.';
    AfterLastSeparator(dir, '.', ext);
    assert AfterLast(name, '.') == ext;
    assert url[..|url| - |ext| - 1] == stem;
  }

  /** The index goes between the stem and the extension: `stem.ext` becomes
      `stem.<index>.ext`. */
  lemma RotatedFileUrlShape(stem: string, ext: string, index: int)
    requires '.' !in ext && '/' !in ext
    ensures MakeRotatedFileUrl(stem + ("." + ext), index) == stem + ("." + (IntToString(index) + ("." + ext)))
  {
    SplitAtExtension(stem, ext);
  }

  /** Distinct indices give distinct backup paths, and no backup path is the
      active file's path; this is what lets the model keep one slot per index. */
  lemma RotatedFileUrlsDistinct(url: string, i: int, j: int)
    ensures MakeRotatedFileUrl(url, i) == MakeRotatedFileUrl(url, j) <==> i == j
    ensures MakeRotatedFileUrl(url, i) != url
  {
    var stem, ext := DeletingPathExtension(url), PathExtension(url);
    var si, sj := IntToString(i), IntToString(j);
    var e := "." + ext;
    var ti, tj := "." + (si + e), "." + (sj + e);
    var ri, rj := MakeRotatedFileUrl(url, i), MakeRotatedFileUrl(url, j);
    assert ri == stem + ti && rj == stem + tj;
    if ri == rj {
      assert ti == ri[|stem|..] == rj[|stem|..] == tj;
      assert si + e == ti[1..] == tj[1..] == sj + e;
      assert |si| == |sj|;
      assert si == (si + e)[..|si|];
      assert sj == (sj + e)[..|sj|];
      IntToStringInjective(i, j);
    }
    IntToStringRoundTrip(i);
    assert |ri| == |stem| + 2 + |si| + |ext|;
  }

  // ---------------------------------------------------------------------------
  // The files of one log file URL

  /** The files at the configured URL's slot paths: slot 0 is the active file,
      slot k the backup `MakeRotatedFileUrl(url, k)`; a missing key is a missing file. */
  class Disk {
    var slots: map<nat, string>

    constructor (slots: map<nat, string>)
      ensures this.slots == slots
    {
      this.slots := slots;
    }
  }

  /** What reading a slot gives; a missing file reads as empty. */
  function Contents(slots: map<nat, string>, k: nat): string {
    if k in slots then slots[k] else ""
  }

  /** The log history kept in slots `n-1` down to `0`, oldest first. */
  function History(slots: map<nat, string>, n: nat): string {
    if n == 0 then "" else Contents(slots, n - 1) + History(slots, n - 1)
  }

  /** The active file after `data` has been appended to it (created first when absent). */
  function Appended(slots: map<nat, string>, data: string): (r: map<nat, string>)
    ensures r.Keys == slots.Keys + {0}
    ensures r[0] == Contents(slots, 0) + data
    ensures forall k :: k in slots && k != 0 ==> r[k] == slots[k]
  {
    slots[0 := Contents(slots, 0) + data]
  }

  /** One pass of `rotateFile`'s loop at `index`: a missing file is skipped;
      the file at the oldest index `last` is deleted; any other file moves up
      into slot `index + 1`. */
  function Pass(p: map<nat, string>, last: int, index: nat): map<nat, string> {
    if index !in p then p
    else if index == last then p - {index}
    else (p - {index})[index + 1 := p[index]]
  }

  /** The files once the loop's passes from `last` down to `index + 1` are done. */
  function Shifted(slots: map<nat, string>, last: int, index: nat): map<nat, string>
    decreases last - index
  {
    if index >= last then slots else Pass(Shifted(slots, last, index + 1), last, index + 1)
  }

  /** The move after the loop: the active file becomes backup 1, unless it is
      missing or backup 1 exists, in which case `moveItem` throws and nothing
      changes. */
  function FinalMove(p: map<nat, string>): map<nat, string> {
    if 0 in p && 1 !in p then (p - {0})[1 := p[0]] else p
  }

  /** The net effect of `rotateFile` with `logFileAmount == amount`: the loop
      over the backup indices `amount - 1` down to 1 (empty when `amount <= 1`),
      then the final move. `RotationAt` states what it leaves in each slot. */
  function Rotation(slots: map<nat, string>, amount: int): map<nat, string> {
    FinalMove(Shifted(slots, amount - 1, 0))
  }

  /** After the passes down to `index + 1`, the slots `index + 2` to `last`
      hold what was one slot below them; the old file at `last` is gone; every
      other slot is untouched. */
  lemma {:induction false} ShiftedAt(slots: map<nat, string>, last: int, index: nat, k: nat)
    requires index <= last
    ensures var p := Shifted(slots, last, index);
      (k in p <==> if index + 1 < k <= last then k - 1 in slots else k in slots && (k <= index || k > last)) &&
      (k in p ==> p[k] == if index + 1 < k <= last then slots[k - 1] else slots[k])
    decreases last - index
  {
    if index < last {
      var i: nat := index + 1;
      ShiftedAt(slots, last, i, k);
      ShiftedAt(slots, last, i, i);
      if k == i + 1 && i < last {
        ShiftedAt(slots, last, i, i);
      }
    }
  }

  /** Slot by slot, with rotation enabled: backup `k` for `1 <= k < amount`
      holds what slot `k - 1` held (the active file becoming backup 1), the
      active file is gone, and slots from `amount` on are untouched. */
  lemma RotationAt(slots: map<nat, string>, amount: int, k: nat)
    requires amount > 1
    ensures var r := Rotation(slots, amount);
      (k in r <==> if 1 <= k < amount then k - 1 in slots else k in slots && k >= amount) &&
      (k in r ==> r[k] == if 1 <= k < amount then slots[k - 1] else slots[k])
  {
    var p := Shifted(slots, amount - 1, 0);
    ShiftedAt(slots, amount - 1, 0, 0);
    ShiftedAt(slots, amount - 1, 0, 1);
    ShiftedAt(slots, amount - 1, 0, k);
  }

  /** Below the oldest index, the slot a pass moves into has been emptied by
      the pass before it, so no `moveItem` of the loop meets an existing file. */
  lemma SlotAboveIsFree(slots: map<nat, string>, last: int, index: nat)
    requires index < last
    ensures index + 1 !in Shifted(slots, last, index)
  {
  }

  /** `validateSaveFile`'s test: rotation is due only when rotation is enabled
      (`logFileAmount > 1`), the active file exists, and its size is strictly
      greater than `logFileMaxSize`. */
  predicate RotationDue(amount: int, maxSize: int, slots: map<nat, string>) {
    amount > 1 && 0 in slots && |slots[0]| > maxSize
  }

  /** The files after `validateSaveFile(str)`: nothing changes without a URL;
      otherwise a due rotation happens first and then `str` and a newline are
      appended to the active file. */
  function Validated(url: Option<string>, amount: int, maxSize: int,
                     slots: map<nat, string>, str: string): (r: map<nat, string>)
    ensures url.None? ==> r == slots
    ensures url.Some? ==> 0 in r && |r[0]| > |str| && r[0][|r[0]| - |str| - 1..] == str + "\n"
  {
    if url.None? then slots
    else
      var before := if RotationDue(amount, maxSize, slots) then Rotation(slots, amount) else slots;
      var line := str + "\n";
      var r := Appended(before, line);
      assert r[0] == Contents(before, 0) + line;
      assert (Contents(before, 0) + line)[|Contents(before, 0)|..] == line;
      r
  }

  // ---------------------------------------------------------------------------
  // Properties of rotation and append

  /** Rotation never creates a file at an index at or past `amount`: if only
      slots below `amount` are occupied before, only backups 1 to `amount - 1`
      exist afterwards, at most `amount - 1` files. */
  lemma RotationKeepsBackupsBounded(slots: map<nat, string>, amount: int)
    requires amount > 1
    requires forall k :: k in slots ==> k < amount
    ensures forall k :: k in Rotation(slots, amount) ==> 1 <= k < amount
    ensures |Rotation(slots, amount)| <= amount - 1
  {
    var r := Rotation(slots, amount);
    var range := Backups(amount - 1);
    forall k | k in r
      ensures 1 <= k < amount
    {
      RotationAt(slots, amount, k);
    }
    assert r.Keys <= range;
    assert range == r.Keys + (range - r.Keys);
  }

  /** The backup indices 1 to `n`. */
  function Backups(n: nat): (r: set<nat>)
    ensures forall k :: k in r <==> 1 <= k <= n
    ensures |r| == n
  {
    if n == 0 then {} else Backups(n - 1) + {n}
  }

  /** After a rotation the first `n` slots hold what the first `n - 1` held before. */
  lemma {:induction false} RotatedHistory(slots: map<nat, string>, amount: int, n: nat)
    requires amount > 1 && 1 <= n <= amount
    ensures History(Rotation(slots, amount), n) == History(slots, n - 1)
  {
    var r := Rotation(slots, amount);
    RotationAt(slots, amount, n - 1);
    if n == 1 {
      assert Contents(r, 0) == "";
    } else {
      RotatedHistory(slots, amount, n - 1);
      assert Contents(r, n - 1) == Contents(slots, n - 2);
    }
  }

  /** Rotation keeps the log's order: the history over all `amount` slots
      before is the discarded oldest backup followed by the history after. */
  lemma RotationKeepsHistoryOrder(slots: map<nat, string>, amount: int)
    requires amount > 1
    ensures History(slots, amount) == Contents(slots, amount - 1) + History(Rotation(slots, amount), amount)
  {
    RotatedHistory(slots, amount, amount);
  }

  /** Appending to the active file appends to the end of the history. */
  lemma {:induction false} AppendedHistory(slots: map<nat, string>, data: string, n: nat)
    requires n >= 1
    ensures History(Appended(slots, data), n) == History(slots, n) + data
  {
    var r := Appended(slots, data);
    if n == 1 {
      assert History(r, 1) == Contents(r, 0) + "";
      assert History(slots, 1) == Contents(slots, 0) + "";
    } else {
      AppendedHistory(slots, data, n - 1);
      assert Contents(r, n - 1) == Contents(slots, n - 1);
    }
  }

  /** Each save adds its line at the end of the history over the rotation
      window; when a rotation was due, the oldest backup's text has dropped
      off the front, and otherwise nothing has. */
  lemma ValidatedKeepsHistoryOrder(url: Option<string>, amount: int, maxSize: int,
                                   slots: map<nat, string>, str: string)
    requires url.Some?
    ensures var w: nat := if amount > 1 then amount else 1;
      var before := History(slots, w);
      var dropped := if RotationDue(amount, maxSize, slots) then |Contents(slots, w - 1)| else 0;
      dropped <= |before| &&
      History(Validated(url, amount, maxSize, slots, str), w) == before[dropped..] + str + "\n"
  {
    var w: nat := if amount > 1 then amount else 1;
    var line := str + "\n";
    if RotationDue(amount, maxSize, slots) {
      RotationKeepsHistoryOrder(slots, amount);
      var r := Rotation(slots, amount);
      AppendedHistory(r, line, w);
      var before := History(slots, w);
      assert before[|Contents(slots, w - 1)|..] == History(r, w);
    } else {
      AppendedHistory(slots, line, w);
    }
  }

  /** Rotation happens only when all three conditions hold; in particular a
      size equal to the limit only appends. */
  lemma RotationOnlyWhenOversized(url: Option<string>, amount: int, maxSize: int,
                                  slots: map<nat, string>, str: string)
    requires url.Some?
    ensures !(amount > 1 && 0 in slots && |slots[0]| > maxSize) ==>
      Validated(url, amount, maxSize, slots, str) == Appended(slots, str + "\n")
    ensures 0 in slots && |slots[0]| == maxSize ==>
      Validated(url, amount, maxSize, slots, str) == Appended(slots, str + "\n")
  {
  }

  /** Saving lines one after the other, each followed by "\n". */
  function SaveAll(slots: map<nat, string>, lines: seq<string>): map<nat, string>
    decreases |lines|
  {
    if |lines| == 0 then slots else SaveAll(Appended(slots, lines[0] + "\n"), lines[1..])
  }

  function JoinLines(lines: seq<string>): string {
    if |lines| == 0 then "" else lines[0] + "\n" + JoinLines(lines[1..])
  }

  /** Appending N lines without rotation leaves exactly those lines, in order,
      after the file's old contents, and touches no backup. */
  lemma {:induction false} SavedLinesInOrder(slots: map<nat, string>, lines: seq<string>)
    ensures var r := SaveAll(slots, lines);
      Contents(r, 0) == Contents(slots, 0) + JoinLines(lines) &&
      forall k :: k != 0 ==> (k in r <==> k in slots) && (k in slots ==> r[k] == slots[k])
    decreases |lines|
  {
    if |lines| > 0 {
      var next := Appended(slots, lines[0] + "\n");
      SavedLinesInOrder(next, lines[1..]);
      assert Contents(slots, 0) + (lines[0] + "\n") + JoinLines(lines[1..])
          == Contents(slots, 0) + JoinLines(lines);
    }
  }

  // ---------------------------------------------------------------------------
  // The destination

  /** A destination that appends to a rotating log file. `base` holds the
      shared destination state (identifier, level filter, toggles). */
  class FileDestination {
    const base: Destination
    const disk: Disk
    const logFileURL: Option<string>
    var syncAfterEachWrite: bool
    var logFileMaxSize: int
    var logFileAmount: int

    /** `logFileURL` is the already resolved path; `None` stands for "no URL"
        (the platform default-path lookup is not modelled). The URL is fixed
        here, because `disk` holds the files of this one URL. */
    constructor (logFileURL: Option<string>, identifier: string, disk: Disk)
      ensures this.logFileURL == logFileURL && this.disk == disk
      ensures base.identifier == identifier && fresh(base)
      ensures base.asynchronously && base.outputLevel == Verbose
      ensures base.Settings() == Display(true, true, true, true, true)
      ensures !syncAfterEachWrite
      ensures logFileMaxSize == 5 * 1024 * 1024 && logFileAmount == 1
    {
      base := new Destination(identifier);
      this.disk := disk;
      this.logFileURL := logFileURL;
      syncAfterEachWrite := false;
      logFileMaxSize := 5 * 1024 * 1024;
      logFileAmount := 1;
    }

    /** `send`: render the line with the shared formatter, then save it. */
    method Send(date: string, level: Level, msg: string,
                file: string, signature: string, line: int) returns (formatted: string)
      modifies disk
      ensures formatted == Render(base.Settings(), date, level, msg, file, signature, line)
      ensures disk.slots == Validated(logFileURL, logFileAmount, logFileMaxSize, old(disk.slots), formatted)
    {
      formatted := base.FormatMessage(date, level, msg, file, signature, line);
      var saved := ValidateSaveFile(formatted);
    }

    /** `validateSaveFile`: false without writing when rotation is enabled
        and there is no URL; otherwise rotate if due and end with `saveToFile`. */
    method ValidateSaveFile(str: string) returns (ok: bool)
      modifies disk
      ensures ok == logFileURL.Some?
      ensures disk.slots == Validated(logFileURL, logFileAmount, logFileMaxSize, old(disk.slots), str)
    {
      if logFileAmount > 1 {
        if logFileURL.None? {
          return false;
        }
        if 0 in disk.slots {
          var fileSize := |disk.slots[0]|;
          if fileSize > logFileMaxSize {
            RotateFile();
          }
        }
      }
      ok := SaveToFile(str);
    }

    /** `rotateFile`: walks the backup indices from `logFileAmount - 1` down to
        1, deleting the oldest backup and moving every other existing one up
        by one, then moves the active file to backup 1. A move whose
        destination exists would throw; the loop never attempts one. */
    method RotateFile()
      modifies disk
      ensures disk.slots == Rotation(old(disk.slots), logFileAmount)
    {
      ghost var start := disk.slots;
      var lastIndex := logFileAmount - 1;
      var firstIndex := 1;
      var index := lastIndex;
      while index >= firstIndex
        invariant index <= lastIndex
        invariant lastIndex >= firstIndex ==> index >= 0
        invariant lastIndex < firstIndex ==> index == lastIndex
        invariant disk.slots == Shifted(start, lastIndex, if index < 0 then 0 else index)
        decreases index
      {
        var oldFile: nat := index;
        if oldFile in disk.slots {
          if index == lastIndex {
            disk.slots := disk.slots - {oldFile};
          } else {
            var newFile: nat := index + 1;
            SlotAboveIsFree(start, lastIndex, oldFile);
            assert newFile !in disk.slots;
            disk.slots := (disk.slots - {oldFile})[newFile := disk.slots[oldFile]];
          }
        }
        index := index - 1;
      }
      if 0 in disk.slots && firstIndex !in disk.slots {
        disk.slots := (disk.slots - {0})[firstIndex := disk.slots[0]];
      }
    }

    /** `saveToFile`: false and no write without a URL; otherwise the line
        `str + "\n"` is appended to the active file. */
    method SaveToFile(str: string) returns (ok: bool)
      modifies disk
      ensures ok == logFileURL.Some?
      ensures disk.slots == if ok then Appended(old(disk.slots), str + "\n") else old(disk.slots)
    {
      if logFileURL.None? {
        return false;
      }
      var line := str + "\n";
      ok := Write(line);
    }

    /** `write(data:to:)`: creates the active file when absent, then appends
        `data` at its end. */
    method Write(data: string) returns (success: bool)
      modifies disk
      ensures success
      ensures disk.slots == Appended(old(disk.slots), data)
    {
      if 0 !in disk.slots {
        disk.slots := disk.slots[0 := ""];
      }
      disk.slots := disk.slots[0 := disk.slots[0] + data];
      success := true;
    }

    /** `deleteLogFile`: true when there is no URL or no active file, and true
        after removing the active file; backups are left alone. */
    method DeleteLogFile() returns (ok: bool)
      modifies disk
      ensures ok
      ensures logFileURL.Some? ==> 0 !in disk.slots
      ensures disk.slots == if logFileURL.Some? then old(disk.slots) - {0} else old(disk.slots)
    {
      if logFileURL.None? || 0 !in disk.slots {
        return true;
      }
      disk.slots := disk.slots - {0};
      return true;
    }
  }
}
