/** Route parameters (`PgRouter.getParamsFromPath` in `client-v2/src/utils/router.ts`). */
module Routes {
  import opened Text

  // -- The parser -----------------------------------------------------------

  datatype Parsed = Params(values: map<string, string>) | Mismatch | NoClosingCurly

  /** `s.slice(0, n)` */
  function Take(s: string, n: nat): (r: string)
    ensures |r| <= |s|
  {
    if |s| <= n then s else s[..n]
  }

  /** `s.slice(n)` */
  function Skip(s: string, n: nat): string {
    if |s| <= n then "" else s[n..]
  }

  predicate StartsWith(s: string, prefix: string) {
    |prefix| <= |s| && s[..|prefix|] == prefix
  }

  function AppendSlash(s: string): string {
    if EndsWith(s, "/") then s else s + "/"
  }

  predicate PathsEqual(a: string, b: string) {
    AppendSlash(a) == AppendSlash(b)
  }

  /** What the part of the path before the next literal gives the variable it stands for. */
  function ValueBefore(path: string, next: char): (value: string)
    ensures |value| <= |path| && path[..|value|] == value
    ensures next !in value
    ensures value == path || path[|value|] == next
  {
    var i := IndexOf(path, next);
    if i == -1 then path else path[..i]
  }

  /** One level of the recursion: its end, or the arguments of the next level. */
  datatype Level = Done(parsed: Parsed) | Next(template: string, path: string, found: map<string, string>)

  /** `found` is the record that the recursion fills. The next level has strictly less template to match. */
  function ParseLevel(template: string, path: string, found: map<string, string>): (level: Level)
    ensures level.Next? ==> |level.template| < |template|
  {
    if template == "" then Done(Params(found))
    else
      var start := IndexOf(template, '{');
      if start == -1 then
        Done(if PathsEqual(template, path) then Params(found) else Mismatch)
      else if !StartsWith(template[..start], Take(path, start)) then Done(Mismatch)
      else
        var rest := Skip(path, start);
        var length := IndexOf(template[start..], '}');
        if length == -1 then Done(NoClosingCurly)
        else
          var end := start + length;
          assert template[start] == template[start..][0] && length > 0;
          var name := template[start + 1..end];
          if end == |template| - 1 then LastValue(name, rest, found)
          else
            var value := ValueBefore(rest, template[end + 1]);
            Next(template[end + 1..], rest[|value|..], found[name := value])
  }

  /** A variable that ends the template takes all that is left, but for one slash. */
  function LastValue(name: string, rest: string, found: map<string, string>): (level: Level)
    ensures level.Done?
  {
    if StartsWith(rest, "/") then Done(Mismatch)
    else Done(Params(found[name := if EndsWith(rest, "/") then rest[..|rest| - 1] else rest]))
  }

  function Parse(template: string, path: string, found: map<string, string>): Parsed
    decreases |template|
  {
    match ParseLevel(template, path, found)
    case Done(parsed) => parsed
    case Next(template', path', found') => Parse(template', path', found')
  }

  // -- What the parts of a path are ------------------------------------------

  /** Taking and skipping part a text in two; a prefix is one in Dafny's sense. */
  lemma PartsOfText(s: string, prefix: string, n: nat)
    ensures Take(s, n) + Skip(s, n) == s && |Take(s, n)| == if n < |s| then n else |s|
    ensures StartsWith(s, prefix) <==> prefix <= s
  {}

  /** Paths are equal if they are, or differ in one slash at the end of the one. */
  lemma PathsEqualIs(a: string, b: string)
    ensures PathsEqual(a, b) <==>
            || a == b
            || (a == b + "/" && (b == "" || b[|b| - 1] != '/'))
            || (b == a + "/" && (a == "" || a[|a| - 1] != '/'))
  {
    SlashIsAppended(a);
    SlashIsAppended(b);
    hide AppendSlash, EndsWith;
    if a + "/" == b + "/" { assert (a + "/")[..|a|] == a && (b + "/")[..|b|] == b; }
  }

  lemma SlashIsAppended(s: string)
    ensures AppendSlash(s) == if s != "" && s[|s| - 1] == '/' then s else s + "/"
  {
    if s != "" { assert s[|s| - 1..] == [s[|s| - 1]]; }
  }

  // -- Templates without a closing brace -------------------------------------

  /** A template whose brace is not closed says so on every path that agrees with the literal before it. */
  lemma UnclosedTemplateFails(lead: string, rest: string, path: string, found: map<string, string>)
    requires '{' !in lead && '}' !in rest
    ensures Parse(lead + ("{" + rest), path, found) == if path <= lead || lead <= path then NoClosingCurly else Mismatch
  {
    var t := lead + ("{" + rest);
    IndexOfAfter(lead, "{" + rest, '{');
    assert t[..|lead|] == lead && t[|lead|..] == "{" + rest;
    assert '}' !in "{" + rest;
    PartsOfText(lead, Take(path, |lead|), 0);
    assert Take(path, |lead|) <= lead <==> path <= lead || lead <= path;
    hide IndexOf, StartsWith, Take;
  }

  // -- Templates and the paths they stand for -------------------------------

  /** A variable and the literal after it. */
  datatype Piece = Piece(name: string, after: string)

  /** The template of a leading literal and the pieces after it. */
  function Template(lead: string, pieces: seq<Piece>): string
    decreases |pieces|
  {
    if pieces == [] then lead
    else lead + ("{" + pieces[0].name + "}" + Template(pieces[0].after, pieces[1..]))
  }

  /** The path with each variable replaced by its value. */
  function Fill(lead: string, pieces: seq<Piece>, values: seq<string>): string
    requires |values| == |pieces|
    decreases |pieces|
  {
    if pieces == [] then lead
    else lead + (values[0] + Fill(pieces[0].after, pieces[1..], values[1..]))
  }

  predicate Names(pieces: seq<Piece>, name: string) {
    exists i :: 0 <= i < |pieces| && pieces[i].name == name
  }

  /** Distinct variables, kept apart by literals. */
  predicate WellFormed(lead: string, pieces: seq<Piece>) {
    && '{' !in lead
    && (forall i | 0 <= i < |pieces| :: '}' !in pieces[i].name && '{' !in pieces[i].after)
    && (forall i | 0 <= i < |pieces| - 1 :: pieces[i].after != "")
    && (forall i, j | 0 <= i < j < |pieces| :: pieces[i].name != pieces[j].name)
  }

  /** Each variable bound to its value, in order. */
  function Bind(found: map<string, string>, pieces: seq<Piece>, values: seq<string>): map<string, string>
    requires |values| == |pieces|
    decreases |pieces|
  {
    if pieces == [] then found
    else Bind(found[pieces[0].name := values[0]], pieces[1..], values[1..])
  }

  /**
   * The values that a filled path, with or without one more slash at its end,
   * gives back.
   */
  predicate Recovers(lead: string, pieces: seq<Piece>, values: seq<string>, slash: bool)
    requires |values| == |pieces|
    decreases |pieces|
  {
    if pieces == [] then slash ==> !EndsWith(lead, "/")
    else if pieces[0].after == "" then
      && !StartsWith(values[0], "/")
      && (if slash then values[0] != "" else !EndsWith(values[0], "/"))
    else pieces[0].after[0] !in values[0] && Recovers(pieces[0].after, pieces[1..], values[1..], slash)
  }

  lemma WellFormedTail(lead: string, pieces: seq<Piece>)
    requires WellFormed(lead, pieces) && pieces != []
    ensures WellFormed(pieces[0].after, pieces[1..])
    ensures pieces[0].after == "" ==> |pieces| == 1
    ensures !Names(pieces[1..], pieces[0].name)
  {
  }

  /** The bounds the parser finds in a template. */
  predicate Cut(t: string, lead: string, name: string, below: string) {
    var end := |lead| + 1 + |name|;
    && |t| == end + 1 + |below|
    && IndexOf(t, '{') == |lead|
    && IndexOf(t[|lead|..], '}') == |name| + 1
    && t[..|lead|] == lead
    && t[|lead| + 1..end] == name
    && t[end + 1..] == below
  }

  lemma OpensAndCloses(lead: string, name: string, below: string)
    requires '{' !in lead && '}' !in name
    ensures
      var t := lead + ("{" + name + "}" + below);
      IndexOf(t, '{') == |lead| && IndexOf(t[|lead|..], '}') == |name| + 1
  {
    var tail, inner := "{" + name + "}" + below, "{" + name;
    hide IndexOf;
    assert tail[0] == '{';
    IndexOfAfter(lead, tail, '{');
    assert tail == inner + ("}" + below);
    assert (lead + tail)[|lead|..] == tail;
    assert '}' !in inner;
    IndexOfAfter(inner, "}" + below, '}');
  }

  lemma Slices(a: string, b: string, c: string)
    ensures (a + b + c)[|a|..|a| + |b|] == b
    ensures (a + b + c)[|a| + |b|..] == c
  {
  }

  lemma IsCut(lead: string, name: string, below: string)
    requires '{' !in lead && '}' !in name
    ensures Cut(lead + ("{" + name + "}" + below), lead, name, below)
  {
    hide IndexOf;
    OpensAndCloses(lead, name, below);
    var t := lead + ("{" + name + "}" + below);
    assert t == (lead + "{") + name + ("}" + below);
    Slices(lead + "{", name, "}" + below);
    assert t == (lead + "{" + name) + "}" + below;
    Slices(lead + "{" + name, "}", below);
  }

  /** The same level on a template cut into a literal, a variable and what is below it. */
  function LevelOf(lead: string, name: string, below: string, path: string, found: map<string, string>): Level {
    var rest := Skip(path, |lead|);
    if !StartsWith(lead, Take(path, |lead|)) then Done(Mismatch)
    else if below == "" then LastValue(name, rest, found)
    else
      var value := ValueBefore(rest, below[0]);
      Next(below, rest[|value|..], found[name := value])
  }

  lemma CutParses(t: string, lead: string, name: string, below: string, path: string, found: map<string, string>)
    requires Cut(t, lead, name, below)
    ensures ParseLevel(t, path, found) == LevelOf(lead, name, below, path, found)
  {
    if below != "" { assert t[|lead| + |name| + 2] == below[0]; }
    hide ValueBefore, IndexOf, Take, Skip, StartsWith, LastValue;
  }

  lemma PieceParses(lead: string, pieces: seq<Piece>, path: string, found: map<string, string>)
    requires WellFormed(lead, pieces) && pieces != []
    ensures
      var below := Template(pieces[0].after, pieces[1..]);
      && ParseLevel(Template(lead, pieces), path, found) == LevelOf(lead, pieces[0].name, below, path, found)
      && (if pieces[0].after == "" then below == "" else below != "" && below[0] == pieces[0].after[0])
  {
    IsCut(lead, pieces[0].name, Template(pieces[0].after, pieces[1..]));
    CutParses(Template(lead, pieces), lead, pieces[0].name, Template(pieces[0].after, pieces[1..]), path, found);
    WellFormedTail(lead, pieces);
    assert pieces[0].after == "" ==> pieces[1..] == [];
    hide ParseLevel, LevelOf, Cut;
  }

  // -- What comes back ------------------------------------------------------

  function Tail(slash: bool): string {
    if slash then "/" else ""
  }

  lemma {:induction false} BindKeeps(found: map<string, string>, pieces: seq<Piece>, values: seq<string>, name: string)
    requires |values| == |pieces| && !Names(pieces, name) && name in found
    ensures name in Bind(found, pieces, values) && Bind(found, pieces, values)[name] == found[name]
    decreases |pieces|
  {
    if pieces != [] {
      assert pieces[0].name != name;
      assert forall i | 0 <= i < |pieces| - 1 :: pieces[1..][i] == pieces[i + 1];
      BindKeeps(found[pieces[0].name := values[0]], pieces[1..], values[1..], name);
    }
  }

  /** A variable the rest of the template does not name keeps the value it was given. */
  lemma {:induction false} ParseKeeps(lead: string, pieces: seq<Piece>, path: string, found: map<string, string>,
                                      name: string)
    requires WellFormed(lead, pieces) && !Names(pieces, name) && name in found
    ensures
      var parsed := Parse(Template(lead, pieces), path, found);
      parsed.Params? ==> name in parsed.values && parsed.values[name] == found[name]
    decreases |pieces|
  {
    if pieces == [] {
      hide EndsWith;
    } else {
      PieceParses(lead, pieces, path, found);
      WellFormedTail(lead, pieces);
      assert pieces[0].name != name;
      assert !Names(pieces[1..], name) by {
        assert forall i | 0 <= i < |pieces| - 1 :: pieces[1..][i] == pieces[i + 1];
      }
      var level := LevelOf(lead, pieces[0].name, Template(pieces[0].after, pieces[1..]), path, found);
      hide WellFormed, Names, ParseLevel, Template, ValueBefore, Take, Skip, StartsWith, EndsWith;
      if level.Next? {
        ParseKeeps(pieces[0].after, pieces[1..], level.path, level.found, name);
      }
    }
  }

  lemma LiteralParses(lead: string, slash: bool, found: map<string, string>)
    requires '{' !in lead
    ensures Parse(lead, lead + Tail(slash), found) == Params(found) <==> (slash ==> !EndsWith(lead, "/"))
  {}

  lemma LastParses(name: string, value: string, slash: bool, found: map<string, string>)
    ensures LastValue(name, value + Tail(slash), found) == Done(Params(found[name := value])) <==>
      !StartsWith(value, "/") && (if slash then value != "" else !EndsWith(value, "/"))
  {
    var rest := value + Tail(slash);
    if slash {
      assert EndsWith(rest, "/") && rest[..|rest| - 1] == value;
    } else {
      assert rest == value;
    }
    if !StartsWith(rest, "/") {
      var given := if EndsWith(rest, "/") then rest[..|rest| - 1] else rest;
      assert found[name := given][name] == given && found[name := value][name] == value;
    }
  }

  /** The value cut off before a literal is the one filled in exactly when it avoids the literal's first character. */
  lemma CutsAtLiteral(value: string, below: string)
    requires below != ""
    ensures ValueBefore(value + below, below[0]) == value <==> below[0] !in value
  {
    if below[0] !in value { IndexOfAfter(value, below, below[0]); assert (value + below)[..|value|] == value; }
    hide IndexOf;
  }

  lemma FillStarts(lead: string, pieces: seq<Piece>, values: seq<string>, slash: bool)
    requires |values| == |pieces| && lead != ""
    ensures
      var path := Fill(lead, pieces, values) + Tail(slash);
      path != "" && path[0] == lead[0]
  {
  }

  /** What the first level leaves of a filled path. */
  lemma FilledLevel(lead: string, value: string, below: string, path: string)
    requires path == lead + (value + below)
    ensures StartsWith(lead, Take(path, |lead|)) && Skip(path, |lead|) == value + below
  {}

  /**
   * A variable before a literal comes back when the value avoids the literal and
   * the rest comes back, and only then.
   */
  lemma PieceInverts(lead: string, pieces: seq<Piece>, value: string, rest: string, found: map<string, string>,
                     bound: map<string, string>)
    requires WellFormed(lead, pieces) && pieces != [] && pieces[0].after != ""
    requires rest != "" && rest[0] == pieces[0].after[0]
    requires pieces[0].name in bound && bound[pieces[0].name] == value
    ensures Parse(Template(lead, pieces), lead + (value + rest), found) == Params(bound) <==>
      && pieces[0].after[0] !in value
      && Parse(Template(pieces[0].after, pieces[1..]), rest, found[pieces[0].name := value]) == Params(bound)
  {
    var name, below, path := pieces[0].name, Template(pieces[0].after, pieces[1..]), lead + (value + rest);
    FilledLevel(lead, value, rest, path);
    PieceParses(lead, pieces, path, found);
    WellFormedTail(lead, pieces);
    CutsAtLiteral(value, rest);
    hide WellFormed, Names, ParseLevel, Template, ValueBefore, Take, Skip, StartsWith, EndsWith;
    var cut := ValueBefore(value + rest, rest[0]);
    if cut == value {
      assert (value + rest)[|cut|..] == rest;
    } else {
      ParseKeeps(pieces[0].after, pieces[1..], (value + rest)[|cut|..], found[name := cut], name);
    }
  }

  lemma LastPieceInverts(lead: string, pieces: seq<Piece>, value: string, slash: bool, found: map<string, string>)
    requires WellFormed(lead, pieces) && pieces != [] && pieces[0].after == ""
    ensures Parse(Template(lead, pieces), lead + (value + Tail(slash)), found) ==
            Params(found[pieces[0].name := value]) <==>
      !StartsWith(value, "/") && (if slash then value != "" else !EndsWith(value, "/"))
  {
    var path := lead + (value + Tail(slash));
    FilledLevel(lead, value, Tail(slash), path);
    PieceParses(lead, pieces, path, found);
    LastParses(pieces[0].name, value, slash, found);
    hide WellFormed, ParseLevel, Template, LastValue, Take, Skip, StartsWith, EndsWith, Tail;
  }

  /**
   * Parsing inverts substitution exactly on the values `Recovers` names: filled
   * in, with or without one more slash, they come back, and no others do.
   */
  lemma {:induction false} ParseInvertsFill(lead: string, pieces: seq<Piece>, values: seq<string>, slash: bool,
                                            found: map<string, string>)
    requires WellFormed(lead, pieces) && |values| == |pieces|
    ensures Parse(Template(lead, pieces), Fill(lead, pieces, values) + Tail(slash), found)
        == Params(Bind(found, pieces, values))
      <==> Recovers(lead, pieces, values, slash)
    decreases |pieces|
  {
    if pieces == [] {
      LiteralParses(lead, slash, found);
    } else {
      var name, after, value := pieces[0].name, pieces[0].after, values[0];
      var path, rest := Fill(lead, pieces, values) + Tail(slash), Fill(after, pieces[1..], values[1..]) + Tail(slash);
      assert path == lead + (value + rest);
      WellFormedTail(lead, pieces);
      if after == "" {
        assert pieces[1..] == [] && rest == Tail(slash);
        LastPieceInverts(lead, pieces, value, slash, found);
        hide Parse, Template, Tail, WellFormed, EndsWith, StartsWith;
      } else {
        FillStarts(after, pieces[1..], values[1..], slash);
        var bound := Bind(found, pieces, values);
        BindKeeps(found[name := value], pieces[1..], values[1..], name);
        hide Parse, Template, Tail, WellFormed, EndsWith, StartsWith, Names;
        PieceInverts(lead, pieces, value, rest, found, bound);
        ParseInvertsFill(after, pieces[1..], values[1..], slash, found[name := value]);
      }
    }
  }

  /** Filled paths come back without a slash and are unchanged by one more, when both ends of the template allow it. */
  lemma TrailingSlashChangesNothing(lead: string, pieces: seq<Piece>, values: seq<string>)
    requires WellFormed(lead, pieces) && |values| == |pieces| && Recovers(lead, pieces, values, false)
    ensures
      var template, path := Template(lead, pieces), Fill(lead, pieces, values);
      Parse(template, path + "/", map[]) == Parse(template, path, map[]) <==>
        if pieces == [] || pieces[|pieces| - 1].after != ""
        then !EndsWith(if pieces == [] then lead else pieces[|pieces| - 1].after, "/")
        else values[|values| - 1] != ""
  {
    hide Parse, WellFormed, EndsWith, StartsWith, Recovers;
    ParseInvertsFill(lead, pieces, values, false, map[]);
    ParseInvertsFill(lead, pieces, values, true, map[]);
    assert Fill(lead, pieces, values) + "" == Fill(lead, pieces, values);
    RecoversWithSlash(lead, pieces, values);
  }

  lemma {:induction false} RecoversWithSlash(lead: string, pieces: seq<Piece>, values: seq<string>)
    requires WellFormed(lead, pieces) && |values| == |pieces| && Recovers(lead, pieces, values, false)
    ensures Recovers(lead, pieces, values, true) <==>
      if pieces == [] || pieces[|pieces| - 1].after != ""
      then !EndsWith(if pieces == [] then lead else pieces[|pieces| - 1].after, "/")
      else values[|values| - 1] != ""
    decreases |pieces|
  {
    if pieces != [] && pieces[0].after != "" {
      WellFormedTail(lead, pieces);
      RecoversWithSlash(pieces[0].after, pieces[1..], values[1..]);
    }
  }

  // -- Paths that stop early -------------------------------------------------

  function Blanks(n: nat): (values: seq<string>)
    ensures |values| == n && forall i | 0 <= i < n :: values[i] == ""
  {
    seq(n, _ => "")
  }

  lemma EqualsNothing(literal: string)
    ensures PathsEqual(literal, "") <==> literal == "" || literal == "/"
  {
    assert |AppendSlash(literal)| >= |literal|;
    if |literal| == 1 { assert EndsWith(literal, "/") <==> literal == "/"; }
  }

  lemma LiteralMatchesNothing(literal: string, found: map<string, string>)
    requires '{' !in literal
    ensures Parse(literal, "", found) == if literal == "" || literal == "/" then Params(found) else Mismatch
  {
    hide IndexOf, PathsEqual;
    EqualsNothing(literal);
  }

  /** What is left of a path that stops inside a literal is empty. */
  lemma StopsInside(lead: string, path: string)
    requires StartsWith(lead, path)
    ensures Take(path, |lead|) == path && Skip(path, |lead|) == ""
  {}

  lemma NothingHasNoValue(next: char)
    ensures ValueBefore("", next) == ""
  {}

  lemma FirstOfBlanks(found: map<string, string>, pieces: seq<Piece>)
    requires pieces != []
    ensures Bind(found, pieces, Blanks(|pieces|))
        == Bind(found[pieces[0].name := ""], pieces[1..], Blanks(|pieces| - 1))
  {
    assert Blanks(|pieces|)[1..] == Blanks(|pieces| - 1);
  }

  /** The literal that closes a template */
  function Closing(pieces: seq<Piece>): string
    requires pieces != []
  {
    pieces[|pieces| - 1].after
  }

  /**
   * A path that stops inside the first literal, or right behind it, matches
   * exactly when the template ends in a variable or in one slash behind it; each
   * variable is then empty.
   */
  lemma {:induction false} StopInFirstLiteral(lead: string, pieces: seq<Piece>, path: string,
                                              found: map<string, string>)
    requires WellFormed(lead, pieces) && pieces != [] && StartsWith(lead, path)
    ensures Parse(Template(lead, pieces), path, found) ==
            if Closing(pieces) == "" || Closing(pieces) == "/"
            then Params(Bind(found, pieces, Blanks(|pieces|)))
            else Mismatch
    decreases |pieces|
  {
    hide ParseLevel, WellFormed, Take, Skip, ValueBefore, PathsEqual, Names;
    var name, after, below := pieces[0].name, pieces[0].after, pieces[1..];
    PieceParses(lead, pieces, path, found);
    StopsInside(lead, path);
    WellFormedTail(lead, pieces);
    FirstOfBlanks(found, pieces);
    if after == "" {
      assert below == [];
    } else {
      NothingHasNoValue(after[0]);
      if below == [] {
        NoBraces(after, below);
        LiteralMatchesNothing(after, found[name := ""]);
      } else {
        StopInFirstLiteral(after, below, "", found[name := ""]);
        hide Template, Bind;
      }
    }
  }

  lemma NoBraces(lead: string, pieces: seq<Piece>)
    requires WellFormed(lead, pieces)
    ensures '{' !in lead
  {}

  /** The path with the first variables filled in that stops with `part` of the literal behind them */
  function Stopped(lead: string, pieces: seq<Piece>, values: seq<string>, part: string): string
    requires |values| <= |pieces|
    decreases |values|
  {
    if values == [] then part
    else lead + (values[0] + Stopped(pieces[0].after, pieces[1..], values[1..], part))
  }

  predicate StopsIn(lead: string, pieces: seq<Piece>, values: seq<string>, part: string)
    requires |values| <= |pieces|
    decreases |values|
  {
    if values == [] then StartsWith(lead, part)
    else
      && pieces[0].after != "" && pieces[0].after[0] !in values[0]
      && StopsIn(pieces[0].after, pieces[1..], values[1..], part)
  }

  /** What is left behind a value of a stopped path is empty or starts as the literal does. */
  lemma StoppedStarts(lead: string, pieces: seq<Piece>, values: seq<string>, part: string)
    requires |values| <= |pieces| && StopsIn(lead, pieces, values, part) && lead != ""
    ensures var rest := Stopped(lead, pieces, values, part);
            rest == "" || rest[0] == lead[0]
  {}

  lemma CutsAtEnd(value: string, rest: string, next: char)
    requires next !in value && (rest == "" || rest[0] == next)
    ensures ValueBefore(value + rest, next) == value && (value + rest)[|value|..] == rest
  {
    if rest == "" {
      assert value + rest == value;
      hide IndexOf;
    } else {
      CutsAtLiteral(value, rest);
    }
  }

  lemma FirstIsBound(found: map<string, string>, pieces: seq<Piece>, values: seq<string>, more: seq<string>)
    requires values != [] && |values| + |more| == |pieces|
    ensures Bind(found, pieces, values + more)
        == Bind(found[pieces[0].name := values[0]], pieces[1..], values[1..] + more)
  {
    assert (values + more)[1..] == values[1..] + more;
  }

  /**
   * A path that stops inside any literal before the last variable, its values so
   * far avoiding the literals behind them, matches exactly when the template ends
   * in a variable or in one slash behind it; the remaining variables are then
   * empty.
   */
  lemma {:induction false} StoppedPathMatches(lead: string, pieces: seq<Piece>, values: seq<string>, part: string,
                                              found: map<string, string>)
    requires WellFormed(lead, pieces) && |values| < |pieces| && StopsIn(lead, pieces, values, part)
    ensures Parse(Template(lead, pieces), Stopped(lead, pieces, values, part), found) ==
            if Closing(pieces) == "" || Closing(pieces) == "/"
            then Params(Bind(found, pieces, values + Blanks(|pieces| - |values|)))
            else Mismatch
    decreases |pieces|
  {
    hide ParseLevel, WellFormed, Take, Skip, ValueBefore, PathsEqual, Names, StartsWith, Template, Bind;
    if values == [] {
      assert values + Blanks(|pieces|) == Blanks(|pieces|);
      StopInFirstLiteral(lead, pieces, part, found);
    } else {
      var name, after, below := pieces[0].name, pieces[0].after, pieces[1..];
      var rest := Stopped(after, below, values[1..], part);
      PieceParses(lead, pieces, lead + (values[0] + rest), found);
      WellFormedTail(lead, pieces);
      FilledLevel(lead, values[0], rest, lead + (values[0] + rest));
      StoppedStarts(after, below, values[1..], part);
      CutsAtEnd(values[0], rest, after[0]);
      FirstIsBound(found, pieces, values, Blanks(|pieces| - |values|));
      StoppedPathMatches(after, below, values[1..], part, found[name := values[0]]);
    }
  }

  // -- All paths that match --------------------------------------------------

  /**
   * The ways a path that gives the first variables their values may go on with
   * `part` and end: inside a literal of a template that closes with nothing or a
   * slash, behind the last variable with or without one slash, or as the closing
   * literal up to one slash.
   */
  predicate Ends(lead: string, pieces: seq<Piece>, values: seq<string>, part: string)
    requires |values| <= |pieces|
    decreases |pieces|
  {
    if pieces == [] then lead == "" || PathsEqual(lead, part)
    else if values == [] then StartsWith(lead, part) && (Closing(pieces) == "" || Closing(pieces) == "/")
    else if pieces[0].after == "" then
      |values| == 1 && !StartsWith(values[0] + part, "/") && (part == "/" || (part == "" && !EndsWith(values[0], "/")))
    else
      pieces[0].after[0] !in values[0] && Ends(pieces[0].after, pieces[1..], values[1..], part)
  }

  lemma EqualPathsStart(a: string, b: string)
    requires PathsEqual(a, b) && a != ""
    ensures b == "" || b[0] == a[0]
  {
    assert AppendSlash(a)[0] == a[0];
    assert b != "" ==> AppendSlash(b)[0] == b[0];
  }

  lemma EndStarts(lead: string, pieces: seq<Piece>, values: seq<string>, part: string)
    requires |values| <= |pieces| && Ends(lead, pieces, values, part) && lead != ""
    ensures var rest := Stopped(lead, pieces, values, part);
            rest == "" || rest[0] == lead[0]
  {
    if pieces == [] { EqualPathsStart(lead, part); }
    hide PathsEqual, EndsWith;
  }

  lemma LastValueEnds(name: string, value: string, part: string, found: map<string, string>)
    requires !StartsWith(value + part, "/") && (part == "/" || (part == "" && !EndsWith(value, "/")))
    ensures LastValue(name, value + part, found) == Done(Params(found[name := value]))
  {
    if part == "/" {
      assert EndsWith(value + part, "/") && (value + part)[..|value + part| - 1] == value;
    } else {
      assert value + part == value;
    }
  }

  lemma LiteralEnds(lead: string, part: string, found: map<string, string>)
    requires '{' !in lead
    ensures Parse(lead, part, found) == if lead == "" || PathsEqual(lead, part) then Params(found) else Mismatch
  {
    hide IndexOf, PathsEqual;
  }

  lemma LastIsBound(found: map<string, string>, pieces: seq<Piece>, value: string)
    requires |pieces| == 1
    ensures Bind(found, pieces, [value] + Blanks(0)) == found[pieces[0].name := value]
  {
    assert [value] + Blanks(0) == [value] && pieces[1..] == [] && [value][1..] == [];
  }

  /** Such a path gives the values, and nothing to the variables it does not reach. */
  lemma {:induction false} EndParses(lead: string, pieces: seq<Piece>, values: seq<string>, part: string,
                                     found: map<string, string>)
    requires WellFormed(lead, pieces) && |values| <= |pieces| && Ends(lead, pieces, values, part)
    ensures Parse(Template(lead, pieces), Stopped(lead, pieces, values, part), found) ==
            Params(Bind(found, pieces, values + Blanks(|pieces| - |values|)))
    decreases |pieces|
  {
    hide ParseLevel, WellFormed, Take, Skip, ValueBefore, PathsEqual, Names, StartsWith, EndsWith, LastValue;
    if pieces == [] {
      NoBraces(lead, pieces);
      LiteralEnds(lead, part, found);
    } else if values == [] {
      assert values + Blanks(|pieces|) == Blanks(|pieces|);
      StopInFirstLiteral(lead, pieces, part, found);
      hide Template, Bind;
    } else {
      var name, after, below := pieces[0].name, pieces[0].after, pieces[1..];
      var rest := Stopped(after, below, values[1..], part);
      PieceParses(lead, pieces, lead + (values[0] + rest), found);
      WellFormedTail(lead, pieces);
      FilledLevel(lead, values[0], rest, lead + (values[0] + rest));
      if after == "" {
        LastValueEnds(name, values[0], part, found);
        assert values == [values[0]];
        LastIsBound(found, pieces, values[0]);
        hide Template, Bind;
      } else {
        EndStarts(after, below, values[1..], part);
        CutsAtEnd(values[0], rest, after[0]);
        FirstIsBound(found, pieces, values, Blanks(|pieces| - |values|));
        EndParses(after, below, values[1..], part, found[name := values[0]]);
        hide Template, Bind;
      }
    }
  }

  /** What a path longer than the literal must start with to match, and what it leaves */
  lemma Splits(lead: string, path: string)
    requires StartsWith(lead, Take(path, |lead|))
    ensures |path| <= |lead| ==> StartsWith(lead, path)
    ensures |path| > |lead| ==> path == lead + Skip(path, |lead|)
  {
    if |path| > |lead| { assert lead[..|lead|] == lead; }
  }

  lemma LastValueFits(name: string, rest: string, found: map<string, string>) returns (value: string, part: string)
    requires LastValue(name, rest, found).parsed.Params?
    ensures rest == value + part && !StartsWith(value + part, "/")
    ensures part == "/" || (part == "" && !EndsWith(value, "/"))
  {
    if EndsWith(rest, "/") {
      value, part := rest[..|rest| - 1], "/";
    } else {
      value, part := rest, "";
    }
    assert rest == value + part;
  }

  /** Every path that matches is such a path. */
  lemma {:induction false} MatchEnds(lead: string, pieces: seq<Piece>, path: string, found: map<string, string>)
    returns (values: seq<string>, part: string)
    requires WellFormed(lead, pieces) && Parse(Template(lead, pieces), path, found).Params?
    ensures |values| <= |pieces| && Ends(lead, pieces, values, part) && path == Stopped(lead, pieces, values, part)
    decreases |pieces|
  {
    hide ParseLevel, WellFormed, Take, Skip, ValueBefore, PathsEqual, Names, StartsWith, EndsWith, LastValue;
    values, part := [], path;
    if pieces == [] {
      NoBraces(lead, pieces);
      LiteralEnds(lead, path, found);
    } else {
      var name, after, below := pieces[0].name, pieces[0].after, pieces[1..];
      PieceParses(lead, pieces, path, found);
      WellFormedTail(lead, pieces);
      Splits(lead, path);
      var rest := Skip(path, |lead|);
      if |path| <= |lead| {
        StopInFirstLiteral(lead, pieces, path, found);
      } else if after == "" {
        var value;
        value, part := LastValueFits(name, rest, found);
        values := [value];
        assert below == [] && values[1..] == [];
      } else {
        var value := ValueBefore(rest, after[0]);
        values, part := MatchEnds(after, below, rest[|value|..], found[name := value]);
        assert rest == value + rest[|value|..];
        values := [value] + values;
      }
    }
  }

  /** A well-formed template is never found unclosed. */
  lemma {:induction false} WellFormedIsClosed(lead: string, pieces: seq<Piece>, path: string, found: map<string,
                                              string>)
    requires WellFormed(lead, pieces)
    ensures Parse(Template(lead, pieces), path, found) != NoClosingCurly
    decreases |pieces|
  {
    hide ParseLevel, WellFormed, Take, Skip, ValueBefore, PathsEqual, StartsWith, EndsWith;
    if pieces == [] {
      NoBraces(lead, pieces);
      LiteralEnds(lead, path, found);
    } else {
      PieceParses(lead, pieces, path, found);
      WellFormedTail(lead, pieces);
      var level := LevelOf(lead, pieces[0].name, Template(pieces[0].after, pieces[1..]), path, found);
      if level.Next? { WellFormedIsClosed(pieces[0].after, pieces[1..], level.path, level.found); }
    }
  }

  /** For every template and path: what matches, and with which values. */
  lemma MatchesExactly(lead: string, pieces: seq<Piece>, path: string, found: map<string, string>,
                       bound: map<string, string>)
    requires WellFormed(lead, pieces)
    ensures Parse(Template(lead, pieces), path, found) == Params(bound) <==>
            exists values: seq<string>, part: string | |values| <= |pieces| ::
              && Ends(lead, pieces, values, part)
              && path == Stopped(lead, pieces, values, part)
              && bound == Bind(found, pieces, values + Blanks(|pieces| - |values|))
  {
    hide Parse, Template, WellFormed, Ends, Stopped, Bind;
    if Parse(Template(lead, pieces), path, found) == Params(bound) {
      var values, part := MatchEnds(lead, pieces, path, found);
      EndParses(lead, pieces, values, part, found);
    }
    forall values: seq<string>, part: string
      | |values| <= |pieces| && Ends(lead, pieces, values, part) && path == Stopped(lead, pieces, values, part)
      ensures Parse(Template(lead, pieces), path, found) ==
              Params(Bind(found, pieces, values + Blanks(|pieces| - |values|)))
    {
      EndParses(lead, pieces, values, part, found);
    }
  }
}
