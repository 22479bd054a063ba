/**
 * The command line of the image processor: `Console::Console` takes the
 * input and output paths and groups the remaining arguments into filters,
 * each a filter name followed by its arguments.
 *
 * `Entries(args)` is the specification of the grouping, read left to right as
 * the constructor does; the lemmas below say what it amounts to: one entry
 * per filter name (or a single empty entry), the names in order, and the
 * arguments before the first name dropped and all others kept in order.
 */
module Console {
  import opened Wrappers

  /** The names that open a filter entry. */
  const FilterNames: seq<string> := ["-crop", "-gs", "-neg", "-sharp", "-edge", "-blur", "-noise"]

  predicate IsFilterName(s: string) {
    s in FilterNames
  }

  /** An element of `ParsedCommands::filters`: a filter name and the arguments that follow it. */
  datatype Entry = Entry(name: string, args: seq<string>)

  /** `ParsedCommands`. */
  datatype ParsedCommands = ParsedCommands(inputPath: string, outputPath: string, filters: seq<Entry>)

  /** The exception the constructor throws. */
  datatype ConsoleError = InputArgumentException(message: string)

  /** The arguments grouped so far: the entries already pushed, and the one being filled. */
  datatype Grouping = Grouping(pushed: seq<Entry>, current: Entry)

  /** The filter names among `args`, in order. */
  function Names(args: seq<string>): seq<string> {
    if args == [] then []
    else Names(args[..|args| - 1]) + if IsFilterName(args[|args| - 1]) then [args[|args| - 1]] else []
  }

  /**
   * One more argument `a`, with `started` telling whether a filter name came
   * before it: a filter name pushes the entry being filled, if one was
   * started, and opens a new one; any other argument joins the entry being
   * filled, or is dropped when no name came before it.
   */
  function Next(g: Grouping, started: bool, a: string): Grouping {
    if IsFilterName(a) then Grouping(if started then g.pushed + [g.current] else g.pushed, Entry(a, []))
    else if started then Grouping(g.pushed, Entry(g.current.name, g.current.args + [a]))
    else g
  }

  /** The arguments read from left to right. */
  function Group(args: seq<string>): Grouping {
    if args == [] then Grouping([], Entry("", []))
    else Next(Group(args[..|args| - 1]), Names(args[..|args| - 1]) != [], args[|args| - 1])
  }

  /** The filter list of the arguments after the two paths: the entry being filled is always pushed last. */
  function Entries(args: seq<string>): seq<Entry> {
    Group(args).pushed + [Group(args).current]
  }

  /**
   * `Console::Console(argc, argv)`, with `argv` holding `argc` strings, the
   * program name first.  With exactly one user argument it throws;
   * otherwise the first two user arguments are the paths and the rest are
   * grouped.  `argc == 1` reads past the end of `argv` and is excluded.
   */
  method Parse(argv: seq<string>) returns (r: Result<ParsedCommands, ConsoleError>)
    requires |argv| >= 2
    ensures |argv| == 2 ==> r == Failure(InputArgumentException("Missing input/output path\n"))
    ensures |argv| >= 3 ==> r == Success(ParsedCommands(argv[1], argv[2], Entries(argv[3..])))
  {
    if |argv| == 2 {
      return Failure(InputArgumentException("Missing input/output path\n"));
    }
    var filters: seq<Entry> := [];
    var flag := false;
    var filter := Entry("", []);
    for i := 3 to |argv|
      invariant flag <==> Names(argv[3..i]) != []
      invariant Group(argv[3..i]) == Grouping(filters, filter)
    {
      PrefixStep(argv, 3, i);
      if !flag {
        NoNameGroup(argv[3..i]);
      }
      if IsFilterName(argv[i]) {
        if flag {
          filters := filters + [filter];
          filter := Entry("", []);
        }
        filter := filter.(name := argv[i]);
        flag := true;
      } else if flag {
        filter := filter.(args := filter.args + [argv[i]]);
      }
    }
    assert argv[3..|argv|] == argv[3..];
    filters := filters + [filter];
    return Success(ParsedCommands(argv[1], argv[2], filters));
  }

  /** A slice one argument longer is read one more step. */
  lemma PrefixStep(argv: seq<string>, lo: nat, i: nat)
    requires lo <= i < |argv|
    ensures Names(argv[lo..i + 1]) == Names(argv[lo..i]) + if IsFilterName(argv[i]) then [argv[i]] else []
    ensures Group(argv[lo..i + 1]) == Next(Group(argv[lo..i]), Names(argv[lo..i]) != [], argv[i])
  {
    assert argv[lo..i + 1][..i - lo] == argv[lo..i];
  }

  /** Before the first filter name nothing has been kept. */
  lemma {:induction false} NoNameGroup(args: seq<string>)
    requires Names(args) == []
    ensures Group(args) == Grouping([], Entry("", []))
    decreases |args|
  {
    if args != [] {
      NoNameGroup(args[..|args| - 1]);
    }
  }

  /** The names of a list of entries, in order. */
  function EntryNames(entries: seq<Entry>): seq<string> {
    if entries == [] then [] else EntryNames(entries[..|entries| - 1]) + [entries[|entries| - 1].name]
  }

  lemma {:induction false} EntryNamesLength(entries: seq<Entry>)
    ensures |EntryNames(entries)| == |entries|
    decreases |entries|
  {
    if entries != [] {
      EntryNamesLength(entries[..|entries| - 1]);
    }
  }

  lemma EntryNamesSnoc(entries: seq<Entry>, e: Entry)
    ensures EntryNames(entries + [e]) == EntryNames(entries) + [e.name]
  {
    assert (entries + [e])[..|entries|] == entries;
  }

  /** Once a filter name has been read, the entries are named by the filter names, in order. */
  lemma {:induction false} GroupNames(args: seq<string>)
    requires Names(args) != []
    ensures EntryNames(Entries(args)) == Names(args)
    decreases |args|
  {
    var init, a := args[..|args| - 1], args[|args| - 1];
    var g := Group(init);
    if Names(init) == [] {
      NoNameGroup(init);
      assert Entries(args) == [Entry(a, [])];
      assert EntryNames([Entry(a, [])]) == EntryNames([]) + [a];
    } else {
      GroupNames(init);
      EntryNamesSnoc(g.pushed, g.current);
      if IsFilterName(a) {
        EntryNamesSnoc(g.pushed + [g.current], Entry(a, []));
      } else {
        EntryNamesSnoc(g.pushed, Entry(g.current.name, g.current.args + [a]));
        assert Names(args) == Names(init) + [];
      }
    }
  }

  /**
   * The constructor pushes exactly `max(1, n)` entries for `n` filter names:
   * with no filter name there is a single entry with an empty name and no
   * arguments, and otherwise the entries carry the filter names in order.
   */
  lemma EntriesByName(args: seq<string>)
    ensures |Entries(args)| == if Names(args) == [] then 1 else |Names(args)|
    ensures Names(args) == [] ==> Entries(args) == [Entry("", [])]
    ensures Names(args) != [] ==> EntryNames(Entries(args)) == Names(args)
  {
    if Names(args) == [] {
      NoNameGroup(args);
    } else {
      GroupNames(args);
      EntryNamesLength(Entries(args));
    }
  }

  /** The entries written out again: each name followed by its arguments. */
  function Spelled(entries: seq<Entry>): seq<string> {
    if entries == [] then [] else Spelled(entries[..|entries| - 1]) + [entries[|entries| - 1].name] + entries[|entries| - 1].args
  }

  lemma SpelledSnoc(entries: seq<Entry>, e: Entry)
    ensures Spelled(entries + [e]) == Spelled(entries) + [e.name] + e.args
  {
    assert (entries + [e])[..|entries|] == entries;
  }

  /** The arguments before the first filter name, which the constructor drops. */
  function Dropped(args: seq<string>): seq<string> {
    if args == [] then []
    else if Names(args[..|args| - 1]) == [] && !IsFilterName(args[|args| - 1]) then args
    else Dropped(args[..|args| - 1])
  }

  /** No filter name is dropped. */
  lemma {:induction false} DroppedHasNoName(args: seq<string>)
    ensures Names(Dropped(args)) == []
    decreases |args|
  {
    if args != [] {
      var init, a := args[..|args| - 1], args[|args| - 1];
      if Names(init) == [] && !IsFilterName(a) {
        assert Names(args) == Names(init) + [];
      } else {
        DroppedHasNoName(init);
      }
    }
  }

  /**
   * Nothing after the first filter name is lost, reordered or invented: the
   * dropped arguments followed by the entries written out again give back
   * the arguments.
   */
  lemma {:induction false} EntriesSpellArguments(args: seq<string>)
    requires Names(args) != []
    ensures Dropped(args) + Spelled(Entries(args)) == args
    decreases |args|
  {
    var init, a := args[..|args| - 1], args[|args| - 1];
    assert init + [a] == args;
    if Names(init) == [] {
      FirstName(init, a);
    } else {
      EntriesSpellArguments(init);
      LaterArgument(init, a);
    }
  }

  /** The first filter name: everything before it is dropped, and it opens the only entry. */
  lemma FirstName(init: seq<string>, a: string)
    requires Names(init) == [] && IsFilterName(a)
    ensures Dropped(init + [a]) + Spelled(Entries(init + [a])) == init + [a]
  {
    var args := init + [a];
    assert args[..|args| - 1] == init;
    assert Dropped(args) == init by {
      DroppedAll(init);
    }
    NoNameGroup(init);
    assert Group(args) == Grouping([], Entry(a, []));
    assert Spelled([Entry(a, [])]) == Spelled([]) + [a] + [];
  }

  /** An argument after a filter name is kept, at the end of the spelled-out entries. */
  lemma LaterArgument(init: seq<string>, a: string)
    requires Names(init) != [] && Dropped(init) + Spelled(Entries(init)) == init
    ensures Dropped(init + [a]) + Spelled(Entries(init + [a])) == init + [a]
  {
    var args := init + [a];
    assert args[..|args| - 1] == init;
    var g := Group(init);
    SpelledSnoc(g.pushed, g.current);
    if IsFilterName(a) {
      SpelledSnoc(g.pushed + [g.current], Entry(a, []));
      assert Spelled(Entries(args)) == Spelled(Entries(init)) + [a];
    } else {
      SpelledSnoc(g.pushed, Entry(g.current.name, g.current.args + [a]));
      assert Spelled(Entries(args)) == Spelled(Entries(init)) + [a];
    }
  }

  /** Before any filter name every argument is dropped. */
  lemma DroppedAll(args: seq<string>)
    requires Names(args) == []
    ensures Dropped(args) == args
  {
  }

  /** No entry takes a filter name as an argument. */
  predicate PlainArguments(entries: seq<Entry>) {
    forall k | 0 <= k < |entries| :: Names(entries[k].args) == []
  }

  lemma PlainSnoc(entries: seq<Entry>, e: Entry)
    ensures PlainArguments(entries + [e]) <==> PlainArguments(entries) && Names(e.args) == []
  {
    assert forall k | 0 <= k < |entries| :: (entries + [e])[k] == entries[k];
    assert (entries + [e])[|entries|] == e;
  }

  lemma {:induction false} EntriesHavePlainArguments(args: seq<string>)
    ensures PlainArguments(Entries(args))
    decreases |args|
  {
    if args != [] {
      var init, a := args[..|args| - 1], args[|args| - 1];
      EntriesHavePlainArguments(init);
      var g := Group(init);
      PlainSnoc(g.pushed, g.current);
      if IsFilterName(a) {
        if Names(init) != [] {
          PlainSnoc(g.pushed + [g.current], Entry(a, []));
        } else {
          PlainSnoc(g.pushed, Entry(a, []));
        }
      } else if Names(init) != [] {
        var e := Entry(g.current.name, g.current.args + [a]);
        assert e.args[..|e.args| - 1] == g.current.args;
        PlainSnoc(g.pushed, e);
      }
    }
  }
}
