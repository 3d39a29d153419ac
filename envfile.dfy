/**
 * The `.env` parser of `load_env_file`, once the file has been read: the
 * contents are cut into lines the way Rust's `str::lines` does, and every
 * line holding a `=` becomes a key and a value, both trimmed, cut at the
 * first `=`. A later line for the same key overrides an earlier one.
 */
module EnvFile {
  import opened Wrappers
  import opened Text

  // ---------------------------------------------------------------------
  // Lines
  // ---------------------------------------------------------------------

  /** One `\r` removed from the end of a line that was ended by `\n`. */
  function StripCr(line: string): string {
    if |line| > 0 && line[|line| - 1] == '\r' then line[..|line| - 1] else line
  }

  /**
   * Rust's `str::lines`: the text cut at each `\n`, a `\r` just before a `\n`
   * dropped with it, and no empty line after a final `\n`. A last line that
   * has no `\n` keeps a trailing `\r`.
   */
  function Lines(s: string): (lines: seq<string>)
    ensures forall i :: 0 <= i < |lines| ==> '\n' !in lines[i]
  {
    AssembleAt(Split(s, '\n'));
    Assemble(Split(s, '\n'))
  }

  /** The lines made of the `\n`-free pieces of a text: all but the last were ended by `\n`. */
  function Assemble(pieces: seq<string>): seq<string>
    requires |pieces| >= 1
  {
    var ended := seq(|pieces| - 1, i requires 0 <= i < |pieces| - 1 => StripCr(pieces[i]));
    var last := pieces[|pieces| - 1];
    if last == [] then ended else ended + [last]
  }

  lemma AssembleAt(pieces: seq<string>)
    requires |pieces| >= 1
    ensures var lines := Assemble(pieces);
      && |lines| == (if pieces[|pieces| - 1] == [] then |pieces| - 1 else |pieces|)
      && (forall i :: 0 <= i < |pieces| - 1 ==> lines[i] == StripCr(pieces[i]))
      && (pieces[|pieces| - 1] != [] ==> lines[|pieces| - 1] == pieces[|pieces| - 1])
      && ((forall i :: 0 <= i < |pieces| ==> '\n' !in pieces[i]) ==> forall i :: 0 <= i < |lines| ==> '\n' !in lines[i])
  {
    var lines := Assemble(pieces);
    if forall i :: 0 <= i < |pieces| ==> '\n' !in pieces[i] {
      forall i | 0 <= i < |lines|
        ensures '\n' !in lines[i]
      {
        if i < |pieces| - 1 {
          var p := pieces[i];
          assert '\n' !in p;
          assert StripCr(p) == p || StripCr(p) == p[..|p| - 1];
          assert forall j :: 0 <= j < |StripCr(p)| ==> StripCr(p)[j] == p[j];
        }
      }
    }
  }

  /**
   * Lines written one after another, each followed by `\n`, come back as
   * they were (a line must not hold `\n` or end in `\r`).
   */
  lemma LinesOfTerminated(lines: seq<string>)
    requires |lines| >= 1
    requires forall i :: 0 <= i < |lines| ==> '\n' !in lines[i] && StripCr(lines[i]) == lines[i]
    ensures Lines(Join(lines, '\n') + "\n") == lines
  {
    var s := Join(lines, '\n') + "\n";
    JoinSnoc(lines, [], '\n');
    assert Join(lines + [[]], '\n') == s;
    var pieces := lines + [[]];
    assert forall i :: 0 <= i < |pieces| ==> '\n' !in pieces[i];
    SplitJoin(pieces, '\n');
    AssembleTerminated(lines);
  }

  lemma AssembleTerminated(lines: seq<string>)
    requires forall i :: 0 <= i < |lines| ==> StripCr(lines[i]) == lines[i]
    ensures Assemble(lines + [[]]) == lines
  {
    AssembleAt(lines + [[]]);
    var r := Assemble(lines + [[]]);
    forall i | 0 <= i < |lines|
      ensures r[i] == lines[i]
    {
      assert (lines + [[]])[i] == lines[i];
    }
  }

  /** Each line followed by `\r\n`: the texts whose lines are separated DOS-style. */
  function CrlfTerminated(lines: seq<string>): (s: string)
    decreases |lines|
  {
    if lines == [] then [] else lines[0] + "\r\n" + CrlfTerminated(lines[1..])
  }

  /**
   * Lines each ended by `\r\n` come back as they were: the `\r` goes with
   * the `\n` (a line may itself end in `\r`; only one is dropped).
   */
  lemma {:induction false} LinesOfCrlfTerminated(lines: seq<string>)
    requires forall i :: 0 <= i < |lines| ==> '\n' !in lines[i]
    ensures Lines(CrlfTerminated(lines)) == lines
  {
    if lines == [] {
      assert CrlfTerminated(lines) == [];
      LinesOfEmpty();
    } else {
      var withCr := seq(|lines|, i requires 0 <= i < |lines| => lines[i] + "\r");
      forall i | 0 <= i < |withCr|
        ensures '\n' !in withCr[i] && StripCr(withCr[i]) == lines[i]
      {
        assert withCr[i][..|withCr[i]| - 1] == lines[i];
      }
      var pieces := withCr + [[]];
      assert CrlfTerminated(lines) == Join(pieces, '\n') by {
        CrlfAsJoin(lines, withCr);
        JoinSnoc(withCr, [], '\n');
      }
      assert Split(Join(pieces, '\n'), '\n') == pieces by {
        assert forall i :: 0 <= i < |pieces| ==> '\n' !in pieces[i];
        SplitJoin(pieces, '\n');
      }
      AssembleLines(withCr, lines);
    }
  }

  /** Pieces each ended by `\n`, with one `\r` each to drop, assemble into the lines. */
  lemma AssembleLines(ended: seq<string>, lines: seq<string>)
    requires |ended| == |lines|
    requires forall i :: 0 <= i < |lines| ==> StripCr(ended[i]) == lines[i]
    ensures Assemble(ended + [[]]) == lines
  {
    AssembleAt(ended + [[]]);
    var r := Assemble(ended + [[]]);
    forall i | 0 <= i < |lines|
      ensures r[i] == lines[i]
    {
      assert (ended + [[]])[i] == ended[i];
    }
  }

  /** `CrlfTerminated` is the `\n`-join of the lines each with a `\r` added, plus a final `\n`. */
  lemma {:induction false} CrlfAsJoin(lines: seq<string>, withCr: seq<string>)
    requires |lines| >= 1 && |withCr| == |lines|
    requires forall i :: 0 <= i < |lines| ==> withCr[i] == lines[i] + "\r"
    ensures CrlfTerminated(lines) == Join(withCr, '\n') + "\n"
    decreases |lines|
  {
    if |lines| == 1 {
      assert CrlfTerminated(lines[1..]) == [];
    } else {
      CrlfAsJoin(lines[1..], withCr[1..]);
    }
  }

  /**
   * A last line not ended by `\n` is kept, trailing `\r` and all, and no
   * empty line is added: `lines()` of the `\n`-join of non-empty-ending lines
   * gives them back (the earlier ones must not end in `\r`).
   */
  lemma LinesOfUnterminated(lines: seq<string>)
    requires |lines| >= 1 && lines[|lines| - 1] != []
    requires forall i :: 0 <= i < |lines| ==> '\n' !in lines[i]
    requires forall i :: 0 <= i < |lines| - 1 ==> StripCr(lines[i]) == lines[i]
    ensures Lines(Join(lines, '\n')) == lines
  {
    assert Split(Join(lines, '\n'), '\n') == lines by {
      SplitJoin(lines, '\n');
    }
    AssembleUnterminated(lines);
  }

  lemma AssembleUnterminated(lines: seq<string>)
    requires |lines| >= 1 && lines[|lines| - 1] != []
    requires forall i :: 0 <= i < |lines| - 1 ==> StripCr(lines[i]) == lines[i]
    ensures Assemble(lines) == lines
  {
    var n := |lines| - 1;
    var ended := seq(n, i requires 0 <= i < n => StripCr(lines[i]));
    assert ended == lines[..n];
    assert Assemble(lines) == ended + [lines[n]];
  }

  /** `a\r\nb` has the lines `a` and `b`; `a\r` alone keeps its `\r`. */
  lemma LinesExamples()
    ensures Lines("a\r\nb") == ["a", "b"]
    ensures Lines("a\r") == ["a\r"]
  {
    assert "a\r\nb" == Join(["a\r", "b"], '\n');
    SplitJoin(["a\r", "b"], '\n');
    AssembleAt(["a\r", "b"]);
    SplitWithoutSeparator("a\r", '\n');
  }

  lemma LinesOfEmpty()
    ensures Lines("") == []
  {
  }

  // ---------------------------------------------------------------------
  // One line
  // ---------------------------------------------------------------------

  /** `line.splitn(2, c)`: the text before the first `c` and the rest, or the whole line. */
  function SplitOnce(line: string, c: char): (parts: seq<string>)
    ensures |parts| == 2 <==> c in line
    ensures |parts| == 2 ==> c !in parts[0] && parts[0] + [c] + parts[1] == line
    ensures |parts| == 1 ==> parts[0] == line
  {
    if c in line then
      var i := IndexOf(line, c);
      assert line[..i] + [c] + line[i + 1..] == line;
      [line[..i], line[i + 1..]]
    else [line]
  }

  /** The key and value a line defines, if any. */
  function Entry(line: string): Option<(string, string)> {
    if |line| > 0 && line[0] == '#' && '=' !in line then None
    else
      var parts := SplitOnce(line, '=');
      if |parts| == 2 then Some((Trim(parts[0]), Trim(parts[1]))) else None
  }

  /** A line defines something exactly when it holds a `=`; comments are not special. */
  lemma EntryIff(line: string)
    ensures Entry(line).Some? <==> '=' in line
  {
  }

  /**
   * `key=value`: the key is everything before the first `=`, the value all
   * after it (further `=` included), both trimmed. A comment line that holds
   * a `=` is therefore an entry whose key starts with `#`.
   */
  lemma EntryOf(key: string, value: string)
    requires '=' !in key
    ensures Entry(key + "=" + value) == Some((Trim(key), Trim(value)))
  {
    var line := key + "=" + value;
    assert line[..|key|] == key;
    IndexOfAt(line, '=', |key|);
    var parts := SplitOnce(line, '=');
    assert parts[0] == key && parts[1] == value;
  }

  /** A commented-out `#KEY=value` still defines a key, and that key starts with `#`. */
  lemma CommentedEntryStillDefines(key: string, value: string)
    requires '=' !in key
    ensures Entry("#" + key + "=" + value) == Some((Trim("#" + key), Trim(value)))
    ensures |Trim("#" + key)| > 0 && Trim("#" + key)[0] == '#'
  {
    CommentedEntry(key, value);
    CommentedKey(key);
  }

  lemma CommentedEntry(key: string, value: string)
    requires '=' !in key
    ensures Entry("#" + key + "=" + value) == Some((Trim("#" + key), Trim(value)))
  {
    var k := "#" + key;
    assert k + "=" + value == "#" + key + "=" + value;
    EntryOf(k, value);
  }

  lemma CommentedKey(key: string)
    ensures |Trim("#" + key)| > 0 && Trim("#" + key)[0] == '#'
  {
    TrimKeepsFirst("#" + key);
  }

  // ---------------------------------------------------------------------
  // The whole file
  // ---------------------------------------------------------------------

  /** The map with a line's entry, if any, inserted (replacing an earlier value). */
  function Insert(vars: map<string, string>, entry: Option<(string, string)>): map<string, string>
  {
    match entry
    case None => vars
    case Some((k, v)) => vars[k := v]
  }

  lemma InsertAt(vars: map<string, string>, entry: Option<(string, string)>, k: string)
    ensures k in Insert(vars, entry) <==> k in vars || (entry.Some? && entry.value.0 == k)
    ensures entry.Some? && entry.value.0 == k ==> Insert(vars, entry)[k] == entry.value.1
    ensures !(entry.Some? && entry.value.0 == k) && k in vars ==> Insert(vars, entry)[k] == vars[k]
  {
  }

  /** The map after inserting `entries` in order. */
  function Fold(entries: seq<Option<(string, string)>>): map<string, string>
    decreases |entries|
  {
    if entries == [] then map[] else Insert(Fold(entries[..|entries| - 1]), entries[|entries| - 1])
  }

  /** Folding one more entry inserts it into the map folded so far. */
  lemma FoldStep(entries: seq<Option<(string, string)>>, i: nat)
    requires i < |entries|
    ensures Fold(entries[..i + 1]) == Insert(Fold(entries[..i]), entries[i])
  {
    assert entries[..i + 1][..i] == entries[..i];
  }

  /** Entry `i` holds key `k`. */
  predicate HasKey(entries: seq<Option<(string, string)>>, i: int, k: string) {
    0 <= i < |entries| && entries[i].Some? && entries[i].value.0 == k
  }

  lemma {:induction false} FoldKeys(entries: seq<Option<(string, string)>>, k: string)
    ensures k in Fold(entries) <==> exists i :: HasKey(entries, i, k)
    decreases |entries|
  {
    if entries != [] {
      var n := |entries| - 1;
      var init := entries[..n];
      FoldKeys(init, k);
      forall i | 0 <= i < n
        ensures HasKey(entries, i, k) <==> HasKey(init, i, k)
      {
        assert entries[i] == init[i];
      }
      InsertAt(Fold(init), entries[n], k);
      if k in Fold(entries) && !HasKey(entries, n, k) {
        var i :| HasKey(init, i, k);
        assert HasKey(entries, i, k);
      }
    }
  }

  lemma {:induction false} FoldLastWins(entries: seq<Option<(string, string)>>, i: nat, k: string)
    requires HasKey(entries, i, k)
    requires forall j :: i < j < |entries| ==> !HasKey(entries, j, k)
    ensures k in Fold(entries) && Fold(entries)[k] == entries[i].value.1
    decreases |entries|
  {
    var n := |entries| - 1;
    var init := entries[..n];
    InsertAt(Fold(init), entries[n], k);
    if i < n {
      assert HasKey(init, i, k) by { assert init[i] == entries[i]; }
      forall j | i < j < |init|
        ensures !HasKey(init, j, k)
      {
        assert init[j] == entries[j];
        assert !HasKey(entries, j, k);
      }
      FoldLastWins(init, i, k);
      assert !HasKey(entries, n, k);
    }
  }

  /** The entries of the lines, line by line. */
  function Entries(lines: seq<string>): seq<Option<(string, string)>>
  {
    seq(|lines|, i requires 0 <= i < |lines| => Entry(lines[i]))
  }

  /** The map the lines of an env file give. */
  function EnvVars(lines: seq<string>): map<string, string> {
    Fold(Entries(lines))
  }

  /** Line `i` of `lines` defines key `k`. */
  predicate Defines(lines: seq<string>, i: int, k: string) {
    0 <= i < |lines| && Entry(lines[i]).Some? && Entry(lines[i]).value.0 == k
  }

  /** A key is in the map exactly when some line defines it. */
  lemma EnvVarsKeys(lines: seq<string>, k: string)
    ensures k in EnvVars(lines) <==> exists i :: Defines(lines, i, k)
  {
    var entries := Entries(lines);
    FoldKeys(entries, k);
    if k in EnvVars(lines) {
      var i :| HasKey(entries, i, k);
      assert Defines(lines, i, k);
    } else {
      forall i | 0 <= i < |lines|
        ensures !Defines(lines, i, k)
      {
        assert !HasKey(entries, i, k);
      }
    }
  }

  /** Its value is the one given by the last line that defines it: later lines win. */
  lemma EnvVarsLastWins(lines: seq<string>, i: nat, k: string)
    requires Defines(lines, i, k)
    requires forall j :: i < j < |lines| ==> !Defines(lines, j, k)
    ensures k in EnvVars(lines) && EnvVars(lines)[k] == Entry(lines[i]).value.1
  {
    var entries := Entries(lines);
    forall j | i < j < |entries|
      ensures !HasKey(entries, j, k)
    {
      assert !Defines(lines, j, k);
    }
    FoldLastWins(entries, i, k);
  }

  /**
   * `load_env_file` after reading: a read error is passed on; otherwise each
   * line in order is skipped when it is a comment without `=`, cut at its
   * first `=`, and inserted into the map when it had one.
   */
  method LoadEnvFile(contents: Result<string, string>) returns (r: Result<map<string, string>, string>)
    ensures contents.Failure? ==> r == Failure(contents.error)
    ensures contents.Success? ==> r == Success(EnvVars(Lines(contents.value)))
  {
    if contents.Failure? {
      return Failure(contents.error);
    }
    var lines := Lines(contents.value);
    ghost var entries := Entries(lines);
    var vars: map<string, string> := map[];
    for i := 0 to |lines|
      invariant vars == Fold(entries[..i])
    {
      var line := lines[i];
      FoldStep(entries, i);
      assert entries[i] == Entry(line);
      if |line| > 0 && line[0] == '#' && '=' !in line {
        continue;
      }
      var parts := SplitOnce(line, '=');
      if |parts| == 2 {
        vars := vars[Trim(parts[0]) := Trim(parts[1])];
      }
    }
    assert entries[..|lines|] == entries;
    return Success(vars);
  }
}
