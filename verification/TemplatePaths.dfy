/** Validation of template source paths: cleaning and the checks that follow it. */
module TemplatePaths {

  datatype PathError = EmptyPath | Backslash | ResolvesToRoot | NotRelative | EscapesRoot | ParentComponent
  datatype Checked = Ok(path: string) | Rejected(why: PathError)

  // ----- Splitting and joining at slashes -----

  predicate SlashFree(s: string) {
    forall i :: 0 <= i < |s| ==> s[i] != '/'
  }

  function Split(s: string): (cs: seq<string>)
    ensures |cs| >= 1
    ensures forall i :: 0 <= i < |cs| ==> SlashFree(cs[i])
  {
    if s == "" then [""]
    else
      var rest := Split(s[1..]);
      if s[0] == '/' then [""] + rest
      else [[s[0]] + rest[0]] + rest[1..]
  }

  function Join(cs: seq<string>): string {
    if |cs| == 0 then "" else if |cs| == 1 then cs[0] else cs[0] + "/" + Join(cs[1..])
  }

  lemma {:induction false} SplitComponent(c: string, rest: string)
    requires SlashFree(c)
    ensures Split(c) == [c]
    ensures Split(c + "/" + rest) == [c] + Split(rest)
    decreases |c|
  {
    if c == "" {
      assert c + "/" + rest == "/" + rest && ("/" + rest)[1..] == rest;
    } else {
      SplitComponent(c[1..], rest);
      var s := c + "/" + rest;
      assert s[0] == c[0] && s[1..] == c[1..] + "/" + rest;
      assert [c[0]] + c[1..] == c;
    }
  }

  lemma {:induction false} SplitJoin(cs: seq<string>)
    requires cs != [] && forall i :: 0 <= i < |cs| ==> SlashFree(cs[i])
    ensures Split(Join(cs)) == cs
    decreases |cs|
  {
    hide Split;
    SplitComponent(cs[0], Join(cs[1..]));
    if |cs| == 1 {
      assert cs == [cs[0]];
    } else {
      SplitJoin(cs[1..]);
      assert cs == [cs[0]] + cs[1..];
    }
  }

  // ----- path.Clean -----

  /** One component pushed on the stack of kept components. */
  function Push(rooted: bool, stack: seq<string>, c: string): seq<string> {
    if c == "" || c == "." then stack
    else if c != ".." then stack + [c]
    else if stack != [] && stack[|stack| - 1] != ".." then stack[..|stack| - 1]
    else if rooted then stack
    else stack + [".."]
  }

  function PushAll(rooted: bool, stack: seq<string>, cs: seq<string>): seq<string>
    decreases |cs|
  {
    if cs == [] then stack else PushAll(rooted, Push(rooted, stack, cs[0]), cs[1..])
  }

  function Clean(p: string): string {
    if p == "" then "."
    else
      var rooted := p[0] == '/';
      var kept := PushAll(rooted, [], Split(p));
      if rooted then "/" + Join(kept) else if kept == [] then "." else Join(kept)
  }

  /** The checks in their order, the last one included. */
  function Validate(p: string): Checked {
    if p == "" then Rejected(EmptyPath)
    else if '\\' in p then Rejected(Backslash)
    else
      var q := Clean(p);
      if q == "." || q == "/" then Rejected(ResolvesToRoot)
      else if "/" <= q then Rejected(NotRelative)
      else if q == ".." || "../" <= q then Rejected(EscapesRoot)
      else if ".." in Split(q) then Rejected(ParentComponent)
      else Ok(q)
  }

  // ----- What acceptance means -----

  predicate Plain(c: string) {
    c != "" && c != "." && c != ".." && SlashFree(c)
  }

  predicate AllPlain(cs: seq<string>) {
    forall i :: 0 <= i < |cs| ==> Plain(cs[i])
  }

  datatype Place = Above | At(dirs: seq<string>)

  /** Walking the components from a directory: going above it is remembered for good. */
  function Walk(at: Place, cs: seq<string>): Place
    decreases |cs|
  {
    if cs == [] || at.Above? then at
    else
      var c := cs[0];
      Walk(if c == "" || c == "." then at
           else if c != ".." then At(at.dirs + [c])
           else if at.dirs == [] then Above
           else At(at.dirs[..|at.dirs| - 1]),
           cs[1..])
  }

  /** A stack without ".." is where the walk is. */
  predicate Agrees(stack: seq<string>, at: Place) {
    match at
    case Above => stack != [] && stack[0] == ".." && forall i :: 0 <= i < |stack| ==> stack[i] == ".." || Plain(stack[i])
    case At(dirs) => stack == dirs && AllPlain(dirs)
  }

  lemma {:induction false} AboveStaysAbove(stack: seq<string>, cs: seq<string>)
    requires Agrees(stack, Above) && forall i :: 0 <= i < |cs| ==> SlashFree(cs[i])
    ensures Agrees(PushAll(false, stack, cs), Above)
    decreases |cs|
  {
    if cs != [] {
      var next := Push(false, stack, cs[0]);
      assert Agrees(next, Above);
      AboveStaysAbove(next, cs[1..]);
    }
  }

  lemma {:induction false} StackFollowsWalk(stack: seq<string>, at: Place, cs: seq<string>)
    requires Agrees(stack, at) && forall i :: 0 <= i < |cs| ==> SlashFree(cs[i])
    ensures Agrees(PushAll(false, stack, cs), Walk(at, cs))
    decreases |cs|
  {
    if at.Above? {
      AboveStaysAbove(stack, cs);
    } else if cs != [] {
      var c := cs[0];
      var at' := if c == "" || c == "." then at
                 else if c != ".." then At(at.dirs + [c])
                 else if at.dirs == [] then Above
                 else At(at.dirs[..|at.dirs| - 1]);
      assert Agrees(Push(false, stack, c), at') by {
        assert at.dirs != [] ==> Plain(at.dirs[|at.dirs| - 1]);
      }
      StackFollowsWalk(Push(false, stack, c), at', cs[1..]);
    }
  }

  lemma JoinStart(cs: seq<string>)
    requires cs != [] && cs[0] != "" && SlashFree(cs[0])
    ensures Join(cs) != "" && Join(cs)[0] == cs[0][0] != '/'
    ensures cs[0] == ".." ==> Join(cs) == ".." || "../" <= Join(cs)
  {
  }

  predicate Relative(p: string) {
    p != "" && p[0] != '/'
  }

  /** A path is accepted if and only if it has no backslash, is relative, never leaves the
      directory it is walked from and does not end up there; the result is the join of the
      directories walked into. */
  lemma AcceptedIffStaysInside(p: string)
    ensures Validate(p).Ok? <==>
            && '\\' !in p && Relative(p)
            && Walk(At([]), Split(p)).At? && Walk(At([]), Split(p)).dirs != []
    ensures Validate(p).Ok? ==> Validate(p).path == Join(Walk(At([]), Split(p)).dirs)
  {
    if '\\' !in p && Relative(p) {
      var at := Walk(At([]), Split(p));
      var kept := PushAll(false, [], Split(p));
      StackFollowsWalk([], At([]), Split(p));
      if kept != [] {
        JoinStart(kept);
        if at.At? {
          PlainJoinPassesChecks(kept);
        }
      }
    } else if p != "" && p[0] == '/' {
      assert "/" <= Clean(p) by {
        assert Clean(p)[..1] == "/";
      }
    }
  }

  lemma PlainJoinPassesChecks(cs: seq<string>)
    requires cs != [] && AllPlain(cs)
    ensures Join(cs) != "." && Join(cs) != ".." && !("../" <= Join(cs)) && !("/" <= Join(cs))
    ensures Split(Join(cs)) == cs && ".." !in Split(Join(cs))
  {
    SplitJoin(cs);
    JoinStart(cs);
    SplitComponent("..", "");
    SplitComponent(".", "");
    if "../" <= Join(cs) {
      var rest := Join(cs)[3..];
      assert Join(cs) == ".." + "/" + rest;
      SplitComponent("..", rest);
    }
  }

  /** Every accepted path is a non-empty slash-join of components none of which is empty, "."
      or "..", and validating it again gives it back. */
  lemma AcceptedIsNormalForm(p: string)
    requires Validate(p).Ok?
    ensures var q := Validate(p).path;
            && AllPlain(Split(q)) && q == Join(Split(q)) && '\\' !in q
            && Validate(q) == Ok(q)
  {
    AcceptedIffStaysInside(p);
    var dirs := Walk(At([]), Split(p)).dirs;
    var q := Join(dirs);
    StackFollowsWalk([], At([]), Split(p));
    PlainJoinPassesChecks(dirs);
    JoinStart(dirs);
    PlainIsItsOwnWalk([], dirs);
    StackCharacters(Split(p), [], '\\');
    SplitCharacters(p, '\\');
    JoinCharacters(dirs, '\\');
    AcceptedIffStaysInside(q);
    assert [] + dirs == dirs;
  }

  lemma {:induction false} PlainIsItsOwnWalk(at: seq<string>, cs: seq<string>)
    requires AllPlain(cs)
    ensures Walk(At(at), cs) == At(at + cs)
    decreases |cs|
  {
    if cs == [] {
      assert at + cs == at;
    } else {
      PlainIsItsOwnWalk(at + [cs[0]], cs[1..]);
      assert at + [cs[0]] + cs[1..] == at + cs;
    }
  }

  predicate Avoids(cs: seq<string>, x: char) {
    forall i :: 0 <= i < |cs| ==> x !in cs[i]
  }

  lemma {:induction false} SplitCharacters(s: string, x: char)
    requires x !in s
    ensures Avoids(Split(s), x)
    decreases |s|
  {
    if s != "" {
      SplitCharacters(s[1..], x);
    }
  }

  lemma {:induction false} JoinCharacters(cs: seq<string>, x: char)
    requires Avoids(cs, x) && x != '/'
    ensures x !in Join(cs)
    decreases |cs|
  {
    if |cs| > 1 {
      JoinCharacters(cs[1..], x);
    }
  }

  lemma {:induction false} StackCharacters(cs: seq<string>, stack: seq<string>, x: char)
    requires x != '.'
    ensures Avoids(cs, x) && Avoids(stack, x) ==> Avoids(PushAll(false, stack, cs), x)
    decreases |cs|
  {
    if cs != [] && Avoids(cs, x) && Avoids(stack, x) {
      StackCharacters(cs[1..], Push(false, stack, cs[0]), x);
    }
  }

  /** After the earlier checks have passed, the component check can never reject. */
  lemma ParentCheckNeverFires(p: string)
    ensures Validate(p) != Rejected(ParentComponent)
  {
    if p != "" && '\\' !in p {
      if p[0] == '/' {
        assert "/" <= Clean(p) by {
          assert Clean(p)[..1] == "/";
        }
      } else {
        var kept := PushAll(false, [], Split(p));
        StackFollowsWalk([], At([]), Split(p));
        if kept != [] {
          JoinStart(kept);
          if Walk(At([]), Split(p)).At? {
            PlainJoinPassesChecks(kept);
          }
        }
      }
    }
  }
}
