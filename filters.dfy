/**
 * Applying the command line's filters to an image (`Filters.cpp`).
 *
 * `ApplyFilter` checks the number of arguments against a table and calls the
 * filter; `FilterChain` applies the filters one after the other to the same
 * image.  The crop filter and the monochrome check of the noise filter are
 * modelled; the floating-point work of the other filters is a parameter,
 * `Floating`, which stands for whatever that code computes or throws.
 *
 * `Apply` and `Chain` specify the two methods on picture values.
 */
module Filters {
  import opened Wrappers
  import opened CLib
  import opened Bitmap
  import Console

  /** The exceptions that leave `ApplyFilter`: its own, and the uncaught `std::out_of_range`. */
  datatype FilterError = FilterArgumentException(message: string) | UncaughtOutOfRange

  /** What a filter itself can throw. */
  datatype Thrown =
    | InvalidArgumentThrown
    | OutOfRangeThrown
    | FilterArgumentThrown(message: string)

  /**
   * The floating-point code: `filter` is one of `Grayscale`, `Negative`,
   * `Sharpening`, `EdgeDetection` or `GaussianBlur` applied to a picture;
   * `transparency` is the noise filter's `std::stod` and range check of its
   * second argument; `blend` is its random template mixed into the picture.
   */
  datatype Floating = Floating(
    filter: (string, seq<string>, Picture) -> Result<Picture, Thrown>,
    transparency: string -> Result<real, Thrown>,
    blend: (Picture, real, bool) -> Picture)

  /** The floating-point code keeps pictures shaped as their dimensions say. */
  ghost predicate KeepsShape(floating: Floating) {
    && (forall name: string, args: seq<string>, p: Picture | p.Shaped() && floating.filter(name, args, p).Success? ::
          floating.filter(name, args, p).value.Shaped())
    && (forall p: Picture, t: real, monochrome: bool | p.Shaped() :: floating.blend(p, t, monochrome).Shaped())
  }

  /** `arg_count`: how many arguments each filter takes. */
  const ArgCounts: map<string, nat> :=
    map["-crop" := 2, "-gs" := 0, "-neg" := 0, "-sharp" := 0, "-edge" := 1, "-blur" := 1, "-noise" := 2]

  /** `arg_count[name]`: `operator[]` gives 0 for a name the table lacks. */
  function ArgCount(name: string): nat {
    if name in ArgCounts then ArgCounts[name] else 0
  }

  /** The filters `ApplyFilter` knows are exactly the names that open an entry on the command line. */
  lemma KnownFilters(name: string)
    ensures name in ArgCounts <==> Console.IsFilterName(name)
  {
  }

  /** The message for a wrong number of arguments. */
  function CountMessage(name: string): string {
    "Invalid \"" + name + "\" arguments count. See help for reference\n"
  }

  /** The message for an argument of the wrong form. */
  function TypeMessage(name: string): string {
    "Invalid \"" + name + "\" argument type. See help for reference\n"
  }

  /** What leaves `ApplyFilter` when the filter throws: `std::invalid_argument` is rethrown as a `FilterArgumentException`. */
  function Rethrow(name: string, t: Thrown): (e: FilterError)
    ensures t.InvalidArgumentThrown? ==> e == FilterArgumentException(TypeMessage(name))
    ensures t.OutOfRangeThrown? ==> e == UncaughtOutOfRange
    ensures t.FilterArgumentThrown? ==> e == FilterArgumentException(t.message)
  {
    match t
    case InvalidArgumentThrown => FilterArgumentException(TypeMessage(name))
    case OutOfRangeThrown => UncaughtOutOfRange
    case FilterArgumentThrown(message) => FilterArgumentException(message)
  }

  /** A `std::stoi` failure as thrown. */
  function StoiThrown(e: StoiError): Thrown {
    match e
    case InvalidArgument => InvalidArgumentThrown
    case OutOfRange => OutOfRangeThrown
  }

  /**
   * The `Crop` filter: both arguments through `std::stoi`, the first one
   * first, converted to `size_t` and given to `Image::Crop`.
   */
  function CropFilter(p: Picture, args: seq<string>): (r: Result<Picture, Thrown>)
    requires p.Shaped() && |args| == 2
    ensures r.Success? ==> Stoi(args[0]).Success? && Stoi(args[1]).Success?
    ensures r.Failure? ==> r.error.InvalidArgumentThrown? || r.error.OutOfRangeThrown?
  {
    match Stoi(args[0])
    case Failure(e) => Failure(StoiThrown(e))
    case Success(width) =>
      match Stoi(args[1])
      case Failure(e) => Failure(StoiThrown(e))
      case Success(height) => Success(Cropped(p, SizeT(width), SizeT(height)))
  }

  /**
   * `Image::Crop`'s test for negative sizes cannot fire on a `size_t`: a
   * negative argument becomes a size near 2^64 and is clamped to the
   * image's own, so the image keeps that dimension.
   */
  lemma CropNegativeKeepsSize(p: Picture, args: seq<string>)
    requires p.Shaped() && |args| == 2 && p.width < 0x8000_0000 && p.height < 0x8000_0000
    requires Stoi(args[0]).Success? && Stoi(args[1]).Success?
    ensures var r := CropFilter(p, args);
      && r.Success?
      && (Stoi(args[0]).value < 0 ==> r.value.width == p.width)
      && (Stoi(args[1]).value < 0 ==> r.value.height == p.height)
      && (Stoi(args[0]).value >= 0 ==> r.value.width == Min(Stoi(args[0]).value, p.width))
      && (Stoi(args[1]).value >= 0 ==> r.value.height == Min(Stoi(args[1]).value, p.height))
  {
  }

  /** `GenerateTemplate`'s reading of its `monochrome` argument. */
  function Monochrome(s: string): (r: Result<bool, Thrown>)
    ensures r.Success? <==> s == "true" || s == "false"
    ensures r.Success? ==> (r.value <==> s == "true")
    ensures r.Failure? ==> r.error == FilterArgumentThrown("Invalid monochrome value - expected true or false\n")
  {
    if s == "true" then Success(true)
    else if s == "false" then Success(false)
    else Failure(FilterArgumentThrown("Invalid monochrome value - expected true or false\n"))
  }

  /**
   * The `Noise` filter: the transparency is read and checked, then the
   * monochrome flag, and only then is the picture changed.
   */
  function NoiseFilter(p: Picture, args: seq<string>, floating: Floating): (r: Result<Picture, Thrown>)
    requires |args| == 2
    ensures floating.transparency(args[1]).Failure? ==> r == Failure(floating.transparency(args[1]).error)
    ensures Monochrome(args[0]).Failure? && floating.transparency(args[1]).Success? ==>
      r == Failure(Monochrome(args[0]).error)
    ensures r.Success? ==> r.value == floating.blend(p, floating.transparency(args[1]).value, args[0] == "true")
  {
    match floating.transparency(args[1])
    case Failure(t) => Failure(t)
    case Success(transparency) =>
      match Monochrome(args[0])
      case Failure(t) => Failure(t)
      case Success(monochrome) => Success(floating.blend(p, transparency, monochrome))
  }

  /** The function the `map` table calls for a known filter name with the right number of arguments. */
  function Dispatch(p: Picture, name: string, args: seq<string>, floating: Floating): (r: Result<Picture, Thrown>)
    requires p.Shaped() && name in ArgCounts && |args| == ArgCounts[name]
    ensures KeepsShape(floating) && r.Success? ==> r.value.Shaped()
  {
    if name == "-crop" then CropFilter(p, args)
    else if name == "-noise" then NoiseFilter(p, args, floating)
    else floating.filter(name, args, p)
  }

  /** What `ApplyFilter` as written does: the filter's result, or a call through a null function pointer. */
  datatype Outcome = Completed(result: Result<Picture, FilterError>) | NullFilterCall

  /**
   * `ApplyFilter` as written.  `map[name]` for a name the table lacks is a
   * null function pointer, and the count check lets such a name through
   * when it comes with no arguments, as the empty name of a command line
   * without filters does.
   */
  function ApplyAsWritten(p: Picture, entry: Console.Entry, floating: Floating): Outcome
    requires p.Shaped()
  {
    if ArgCount(entry.name) != |entry.args| then Completed(Failure(FilterArgumentException(CountMessage(entry.name))))
    else if entry.name !in ArgCounts then NullFilterCall
    else
      match Dispatch(p, entry.name, entry.args, floating)
      case Failure(t) => Completed(Failure(Rethrow(entry.name, t)))
      case Success(q) => Completed(Success(q))
  }

  /**
   * `ApplyFilter` as intended: a wrong number of arguments throws; a name
   * without a filter and without arguments leaves the picture as it is; a
   * known filter gives its result, its exceptions passed on.
   */
  function Apply(p: Picture, entry: Console.Entry, floating: Floating): (r: Result<Picture, FilterError>)
    requires p.Shaped()
    ensures KeepsShape(floating) && r.Success? ==> r.value.Shaped()
  {
    if ArgCount(entry.name) != |entry.args| then Failure(FilterArgumentException(CountMessage(entry.name)))
    else if entry.name !in ArgCounts then Success(p)
    else
      match Dispatch(p, entry.name, entry.args, floating)
      case Failure(t) => Failure(Rethrow(entry.name, t))
      case Success(q) => Success(q)
  }

  /**
   * The argument count is checked before anything else: a wrong count
   * fails with the count message whatever the picture and the filters are,
   * and the crop filter, whose exceptions the model sees, never fails with
   * that message when the count is right.
   */
  lemma ArityChecked(p: Picture, q: Picture, entry: Console.Entry, floating: Floating, other: Floating)
    requires p.Shaped() && q.Shaped()
    ensures ArgCount(entry.name) != |entry.args| ==>
      Apply(p, entry, floating) == Apply(q, entry, other) == Failure(FilterArgumentException(CountMessage(entry.name)))
    ensures entry.name == "-crop" ==>
      (Apply(p, entry, floating) == Failure(FilterArgumentException(CountMessage(entry.name))) <==> |entry.args| != 2)
  {
    MessagesDiffer(entry.name);
  }

  /** The two messages of `ApplyFilter` differ, whatever the name. */
  lemma MessagesDiffer(name: string)
    ensures CountMessage(name) != TypeMessage(name)
  {
    assert CountMessage(name)[|name| + 19] == 's';
    assert TypeMessage(name)[|name| + 19] == ' ';
  }

  /** Both agree wherever the code as written is defined. */
  lemma AsWrittenAgrees(p: Picture, entry: Console.Entry, floating: Floating)
    requires p.Shaped()
    ensures ApplyAsWritten(p, entry, floating).Completed? ==> ApplyAsWritten(p, entry, floating).result == Apply(p, entry, floating)
    ensures ApplyAsWritten(p, entry, floating).NullFilterCall? <==> entry.name !in ArgCounts && entry.args == []
  {
  }

  /**
   * A command line with the two paths and no filter gives one entry with an
   * empty name, on which `ApplyFilter` as written calls a null function
   * pointer; as intended, it leaves the image as it is.
   */
  lemma NoFilterCallsNull(p: Picture, floating: Floating)
    requires p.Shaped()
    ensures Console.Entries([]) == [Console.Entry("", [])]
    ensures ApplyAsWritten(p, Console.Entry("", []), floating) == NullFilterCall
    ensures Apply(p, Console.Entry("", []), floating) == Success(p)
  {
    Console.EntriesByName([]);
  }

  /** The filters applied in order to the picture each produced, stopping at the first exception. */
  function Chain(p: Picture, filters: seq<Console.Entry>, floating: Floating): (r: Result<Picture, FilterError>)
    requires p.Shaped() && KeepsShape(floating)
    ensures r.Success? ==> r.value.Shaped()
    decreases |filters|
  {
    if filters == [] then Success(p)
    else
      match Apply(p, filters[0], floating)
      case Failure(e) => Failure(e)
      case Success(q) => Chain(q, filters[1..], floating)
  }

  /** Applying a list of filters then another is applying the two lists joined, in that order. */
  lemma {:induction false} ChainAppend(p: Picture, first: seq<Console.Entry>, second: seq<Console.Entry>, floating: Floating)
    requires p.Shaped() && KeepsShape(floating)
    ensures Chain(p, first + second, floating) ==
      match Chain(p, first, floating)
      case Failure(e) => Failure(e)
      case Success(q) => Chain(q, second, floating)
    decreases |first|
  {
    if first == [] {
      assert first + second == second;
    } else {
      assert (first + second)[0] == first[0];
      assert (first + second)[1..] == first[1..] + second;
      match Apply(p, first[0], floating)
      case Failure(e) =>
      case Success(q) =>
        ChainAppend(q, first[1..], second, floating);
    }
  }

  /**
   * The picture the image holds once the chain has run to its end or stopped
   * at its first exception: a failing filter leaves its input in place.
   */
  function Progress(p: Picture, filters: seq<Console.Entry>, floating: Floating): (q: Picture)
    requires p.Shaped() && KeepsShape(floating)
    ensures q.Shaped()
    decreases |filters|
  {
    if filters == [] then p
    else
      match Apply(p, filters[0], floating)
      case Failure(_) => p
      case Success(q) => Progress(q, filters[1..], floating)
  }

  /**
   * A chain that succeeds ends on its progress; a chain that fails leaves the
   * result of the filters before the failing one, on which that filter fails.
   */
  lemma {:induction false} ChainProgress(p: Picture, filters: seq<Console.Entry>, floating: Floating)
    requires p.Shaped() && KeepsShape(floating)
    ensures Chain(p, filters, floating).Success? ==>
      Chain(p, filters, floating).value == Progress(p, filters, floating)
    ensures Chain(p, filters, floating).Failure? ==>
      exists k | 0 <= k < |filters| ::
        && Chain(p, filters[..k], floating) == Success(Progress(p, filters, floating))
        && Apply(Progress(p, filters, floating), filters[k], floating).Failure?
    decreases |filters|
  {
    if filters != [] {
      match Apply(p, filters[0], floating)
      case Failure(_) =>
        assert filters[..0] == [];
      case Success(q) =>
        ChainProgress(q, filters[1..], floating);
        if Chain(p, filters, floating).Failure? {
          var k :| 0 <= k < |filters[1..]|
            && Chain(q, filters[1..][..k], floating) == Success(Progress(q, filters[1..], floating))
            && Apply(Progress(q, filters[1..], floating), filters[1..][k], floating).Failure?;
          assert filters[..k + 1][0] == filters[0];
          assert filters[..k + 1][1..] == filters[1..][..k];
          assert Chain(p, filters[..k + 1], floating) == Success(Progress(p, filters, floating));
        }
    }
  }

  /** A list of one filter is that filter. */
  lemma ChainSingle(p: Picture, entry: Console.Entry, floating: Floating)
    requires p.Shaped() && KeepsShape(floating)
    ensures Chain(p, [entry], floating) == Apply(p, entry, floating)
  {
    assert [entry][1..] == [];
  }

  /**
   * `ApplyFilter(image, start, filter)` with `start` an alias of `image`:
   * the filter reads the image it writes.  On an exception the image is left
   * as it was.
   */
  method ApplyFilter(image: Image, entry: Console.Entry, floating: Floating) returns (r: Result<(), FilterError>)
    requires image.Shaped()
    modifies image
    ensures var spec := Apply(old(image.Snapshot()), entry, floating);
      && (r.Success? <==> spec.Success?)
      && (spec.Success? ==> image.Snapshot() == spec.value)
      && (spec.Failure? ==> r.error == spec.error && image.Snapshot() == old(image.Snapshot()))
  {
    var name, args := entry.name, entry.args;
    if ArgCount(name) != |args| {
      return Failure(FilterArgumentException(CountMessage(name)));
    }
    if name !in ArgCounts {
      return Success(());
    }
    var result: Result<Picture, Thrown>;
    if name == "-crop" {
      var width := Stoi(args[0]);
      if width.Failure? {
        return Failure(Rethrow(name, StoiThrown(width.error)));
      }
      var height := Stoi(args[1]);
      if height.Failure? {
        return Failure(Rethrow(name, StoiThrown(height.error)));
      }
      var cropped := image.Crop(SizeT(width.value), SizeT(height.value));
      result := Success(cropped.Snapshot());
    } else if name == "-noise" {
      result := NoiseFilter(image.Snapshot(), args, floating);
    } else {
      result := floating.filter(name, args, image.Snapshot());
    }
    if result.Failure? {
      return Failure(Rethrow(name, result.error));
    }
    image.width, image.height, image.colors := result.value.width, result.value.height, result.value.colors;
    return Success(());
  }

  /**
   * `FilterChain(image, filters)`: each filter in turn, on the image as the
   * previous one left it; the first exception ends the chain.
   */
  method FilterChain(image: Image, filters: seq<Console.Entry>, floating: Floating) returns (r: Result<(), FilterError>)
    requires image.Shaped() && KeepsShape(floating)
    modifies image
    ensures var spec := Chain(old(image.Snapshot()), filters, floating);
      && (r.Success? <==> spec.Success?)
      && (spec.Success? ==> image.Snapshot() == spec.value)
      && (spec.Failure? ==> r.error == spec.error)
    ensures image.Snapshot() == Progress(old(image.Snapshot()), filters, floating)
  {
    for i := 0 to |filters|
      invariant image.Shaped()
      invariant Chain(old(image.Snapshot()), filters, floating) == Chain(image.Snapshot(), filters[i..], floating)
      invariant Progress(old(image.Snapshot()), filters, floating) == Progress(image.Snapshot(), filters[i..], floating)
    {
      var step := ApplyFilter(image, filters[i], floating);
      if step.Failure? {
        return Failure(step.error);
      }
      assert filters[i..][1..] == filters[i + 1..];
    }
    return Success(());
  }
}
