/** helper/error.go: panicking on errors, and a validation report of several errors. */
module ErrorHelper {
  import opened Wrappers
  import opened Strings

  /** ErrorPanic: returns for nil, panics with the error otherwise. */
  function ErrorPanic(err: Outcome): (c: Completion<()>)
    ensures c.Panicked? <==> err.Fail?
    ensures c.Panicked? ==> c.reason == ErrorText(err.error)
  {
    if err.Fail? then Panicked(ErrorText(err.error)) else Returned(())
  }

  /** A GroupedError; each schema error is represented by the text `%s` prints for it. */
  datatype GroupedError = GroupedError(errors: seq<string>)

  function Line(desc: string): string { "- " + desc + "\n" }

  /** The report: one line "- <desc>" per error, in order. */
  function Render(errors: seq<string>): string
  {
    if errors == [] then "" else Line(errors[0]) + Render(errors[1..])
  }

  /** GroupedError.Error: the lines written one after another into a builder. */
  method Error(e: GroupedError) returns (s: string)
    ensures s == Render(e.errors)
  {
    var b := "";
    for i := 0 to |e.errors|
      invariant b == Render(e.errors[..i])
    {
      RenderConcat(e.errors[..i], [e.errors[i]]);
      assert e.errors[..i + 1] == e.errors[..i] + [e.errors[i]];
      b := b + Line(e.errors[i]);
    }
    assert e.errors[..|e.errors|] == e.errors;
    return b;
  }

  /** GetErrors returns the list unchanged. */
  function GetErrors(e: GroupedError): (r: seq<string>)
    ensures r == e.errors
  {
    e.errors
  }

  /** Rendering distributes over concatenation of the error lists. */
  lemma {:induction false} RenderConcat(a: seq<string>, b: seq<string>)
    ensures Render(a + b) == Render(a) + Render(b)
  {
    if a == [] {
      assert a + b == b;
    } else {
      assert (a + b)[1..] == a[1..] + b;
      RenderConcat(a[1..], b);
    }
  }

  function TotalLength(errors: seq<string>): nat
  {
    if errors == [] then 0 else |errors[0]| + TotalLength(errors[1..])
  }

  /** No errors give the empty report; otherwise each error adds its length plus three bytes. */
  lemma {:induction false} RenderLength(errors: seq<string>)
    ensures |Render(errors)| == TotalLength(errors) + 3 * |errors|
    ensures errors == [] <==> Render(errors) == ""
  {
    if errors != [] { RenderLength(errors[1..]); }
  }

  /** When no description holds a line break, the report has exactly one line per error. */
  lemma {:induction false} RenderLines(errors: seq<string>)
    requires forall i :: 0 <= i < |errors| ==> '\n' !in errors[i]
    ensures Count(Render(errors), '\n') == |errors|
  {
    if errors != [] {
      RenderLines(errors[1..]);
      var d := errors[0];
      assert '\n' !in d;
      CountAbsent(d, '\n');
      CountConcat("- " + d, "\n", '\n');
      CountConcat("- ", d, '\n');
      CountConcat(Line(d), Render(errors[1..]), '\n');
    }
  }

  /** Splitting such a report at line breaks gives back the lines, then an empty tail. */
  lemma {:induction false} RenderSplit(errors: seq<string>)
    requires forall i :: 0 <= i < |errors| ==> '\n' !in errors[i]
    ensures Split(Render(errors), '\n') == seq(|errors|, i requires 0 <= i < |errors| => "- " + errors[i]) + [""]
  {
    if errors == [] {
    } else {
      var d := errors[0];
      assert '\n' !in d;
      assert '\n' !in "- " + d;
      assert Render(errors) == ("- " + d) + ['\n'] + Render(errors[1..]);
      SplitCons("- " + d, '\n', Render(errors[1..]));
      RenderSplit(errors[1..]);
    }
  }
}
