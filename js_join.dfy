/** `Array.prototype.join(" ")` over an array whose elements may be `undefined`. */
module JsJoin {
  import opened Wrappers

  /** How `join` renders one element: `undefined` (and `null`) become the empty string. */
  function TextOf(f: Option<string>): (t: string)
    ensures t == f.GetOr("")
  {
    match f
    case None => ""
    case Some(s) => s
  }

  /** Total length of the rendered elements, separators not included. */
  function TextLength(fs: seq<Option<string>>): nat {
    if |fs| == 0 then 0 else TextLength(fs[..|fs| - 1]) + |TextOf(fs[|fs| - 1])|
  }

  /** `fs.join(" ")`: one separator between every two neighbouring elements,
      whether or not either of them is present. */
  function Join(fs: seq<Option<string>>): (r: string)
    ensures r == "" <==> |fs| == 0 || (|fs| == 1 && TextOf(fs[0]) == "")
  {
    if |fs| == 0 then ""
    else if |fs| == 1 then TextOf(fs[0])
    else Join(fs[..|fs| - 1]) + " " + TextOf(fs[|fs| - 1])
  }

  /** The joined text is the elements' texts plus one separator between each two of them,
      so every message is longer than its fragments by one character per extra fragment. */
  lemma {:induction false} JoinLength(fs: seq<Option<string>>)
    requires |fs| > 0
    ensures |Join(fs)| == TextLength(fs) + |fs| - 1
    decreases |fs|
  {
    if |fs| > 1 {
      JoinLength(fs[..|fs| - 1]);
    }
  }

  /** Pushing one more element extends the joined text by a separator and that element. */
  lemma JoinSnoc(fs: seq<Option<string>>, f: Option<string>)
    ensures Join(fs + [f]) == if fs == [] then TextOf(f) else Join(fs) + " " + TextOf(f)
  {
    assert (fs + [f])[..|fs|] == fs;
  }

  /** Joining more elements never changes the text joined so far: it only grows at the end. */
  lemma {:induction false} JoinIsPrefix(fs: seq<Option<string>>, gs: seq<Option<string>>)
    ensures Join(fs) <= Join(fs + gs)
    decreases |gs|
  {
    if gs != [] {
      var init, last := gs[..|gs| - 1], gs[|gs| - 1];
      assert fs + gs == (fs + init) + [last];
      JoinIsPrefix(fs, init);
      JoinSnoc(fs + init, last);
    } else {
      assert fs + gs == fs;
    }
  }

  /** The joined texts of two prefixes of one array are prefixes of each other, shorter first. */
  lemma JoinPrefixesGrow(fs: seq<Option<string>>, a: nat, b: nat)
    requires a <= b <= |fs|
    ensures Join(fs[..a]) <= Join(fs[..b])
  {
    assert fs[..a] + fs[a..b] == fs[..b];
    JoinIsPrefix(fs[..a], fs[a..b]);
  }

  /** Every element after the first, each preceded by the separator. */
  function Separated(gs: seq<Option<string>>): string {
    if |gs| == 0 then "" else " " + TextOf(gs[0]) + Separated(gs[1..])
  }

  lemma {:induction false} SeparatedSnoc(gs: seq<Option<string>>, g: Option<string>)
    ensures Separated(gs + [g]) == Separated(gs) + " " + TextOf(g)
    decreases |gs|
  {
    if gs != [] {
      assert (gs + [g])[1..] == gs[1..] + [g];
      SeparatedSnoc(gs[1..], g);
    } else {
      assert Separated([g][1..]) == "";
    }
  }

  /** `join` read from the left: the first element, then every other one behind a separator.
      This is how the language describes `join`; the model's `Join` reads from the right. */
  lemma {:induction false} JoinFromTheLeft(fs: seq<Option<string>>)
    requires |fs| > 0
    ensures Join(fs) == TextOf(fs[0]) + Separated(fs[1..])
    decreases |fs|
  {
    if |fs| == 1 {
      assert Separated(fs[1..]) == "";
    } else {
      var init := fs[..|fs| - 1];
      JoinFromTheLeft(init);
      assert init[1..] + [fs[|fs| - 1]] == fs[1..];
      SeparatedSnoc(init[1..], fs[|fs| - 1]);
    }
  }

  /** Two absent contents join to a single space, which is a non-empty string. */
  lemma JoinOfTwoAbsent()
    ensures Join([None, None]) == " "
  {
    var absent: Option<string> := None;
    JoinSnoc([absent], absent);
    assert [absent] + [absent] == [absent, absent];
  }

  /** An empty fragment still gets its separators: "Hello", "" and " world" join to
      "Hello" followed by three spaces and "world". */
  lemma JoinKeepsSeparatorsAroundEmpty()
    ensures Join([Some("Hello"), Some(""), Some(" world")]) == "Hello   world"
  {
    JoinSnoc([Some("Hello")], Some(""));
    assert [Some("Hello")] + [Some("")] == [Some("Hello"), Some("")];
    JoinSnoc([Some("Hello"), Some("")], Some(" world"));
    assert [Some("Hello"), Some("")] + [Some(" world")] == [Some("Hello"), Some(""), Some(" world")];
  }
}
