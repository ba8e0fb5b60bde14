/**
 * The bracketed codename grammar of src/gpr1d/core/utils.py:
 * `Op(child-child-...)` for the operators `Sum`, `Prod` and `Sym`, the
 * primitive names `C`, `n`, `L`, `P`, `SE`, `RQ`, `MH`, `NN`, and `Gw...`
 * for a Gibbs kernel with a warping function. The parser's result is the
 * tree of constructor calls it makes; a `None` entry is a child name it did
 * not recognise, handed on to the operator constructor as it is.
 */
module Codename {
  import opened Wrappers
  import opened Strings
  import opened Kernels

  datatype Warp = ConstantWarp | InverseGaussianWarp

  datatype Tree =
    | Leaf(kind: PrimKind)
    | Gibbs(warp: Option<Warp>)
    | Node(op: OpKind, children: seq<Option<Tree>>)

  function OpName(op: OpKind): string
  {
    match op
    case SumOp => "Sum"
    case ProductOp => "Prod"
    case SymmetricOp => "Sym"
  }

  /** `re.search('^' + w + '$', s)`: `$` also matches before one final line break. */
  predicate Exact(s: string, w: string)
  {
    s == w || s == w + "\n"
  }

  /** `(.*)$` over all of `t`: `t` itself, or `t` without one final line break, provided no other line break remains. */
  function LineBody(t: string): (r: Option<string>)
    ensures r.Some? ==> '\n' !in r.value && (t == r.value || t == r.value + "\n")
    ensures '\n' !in t ==> r == Some(t)
  {
    var u := if t != [] && t[|t| - 1] == '\n' then t[..|t| - 1] else t;
    assert t == u || t == u + "\n";
    if '\n' in u then None else Some(u)
  }

  /** `(.*)\)$` over all of `rest`: the text before a final `)`. */
  function CloseBody(rest: string): (r: Option<string>)
    ensures r.Some? ==> '\n' !in r.value && (rest == r.value + ")" || rest == r.value + ")\n")
    ensures '\n' !in rest && rest != [] && rest[|rest| - 1] == ')' ==> r == Some(rest[..|rest| - 1])
  {
    match LineBody(rest)
    case None => None
    case Some(line) =>
      if line != [] && line[|line| - 1] == ')' then
        assert line == line[..|line| - 1] + ")";
        Some(line[..|line| - 1])
      else None
  }

  /**
   * `re.search(r'^(.*?)\((.*)\)$', s)`: the text before the first `(` and
   * the text between it and a final `)` (one line break may follow it),
   * provided neither holds a line break.
   */
  function BracketSplit(s: string): (r: Option<(string, string)>)
    ensures r.Some? ==> '(' !in r.value.0 && '\n' !in r.value.0 && '\n' !in r.value.1
    ensures r.Some? ==> s == r.value.0 + "(" + r.value.1 + ")" || s == r.value.0 + "(" + r.value.1 + ")\n"
    ensures r.Some? ==> |r.value.0| + |r.value.1| < |s|
    ensures '(' !in s ==> r.None?
  {
    if '(' !in s then None
    else
      var i := IndexOf(s, '(');
      if '\n' in s[..i] then None
      else
        match CloseBody(s[i + 1..])
        case None => None
        case Some(body) =>
          SplitAt(s, i, body);
          Some((s[..i], body))
  }

  /** The pieces around the first `(` of `s`, at `i`, when the rest closes with `)`. */
  lemma {:induction false} SplitAt(s: string, i: nat, body: string)
    requires i < |s| && s[i] == '(' && '(' !in s[..i] && '\n' !in s[..i]
    requires s[i + 1..] == body + ")" || s[i + 1..] == body + ")\n"
    ensures s == s[..i] + "(" + body + ")" || s == s[..i] + "(" + body + ")\n"
    ensures |s[..i]| + |body| < |s|
  {
    assert s == s[..i] + "(" + s[i + 1..];
  }

  lemma {:induction false} BracketSplitOf(head: string, body: string)
    requires '(' !in head && '\n' !in head && '\n' !in body
    ensures BracketSplit(head + "(" + body + ")") == Some((head, body))
  {
    var s := head + "(" + body + ")";
    var rest := body + ")";
    assert forall j :: 0 <= j < |head| ==> s[j] == head[j];
    assert s[|head|] == '(';
    var i := IndexOf(s, '(');
    assert i == |head|;
    assert s[..i] == head;
    assert s[i + 1..] == rest;
    assert '\n' !in rest;
    assert rest[..|rest| - 1] == body;
  }

  // ----------------------------------------------------------------------
  // Grouping the links of the children text
  // ----------------------------------------------------------------------

  /** After reading `link` in a run that is (`open`) or is not open: does a run stay open? */
  function StillOpen(open: bool, link: string): bool
  {
    if ')' in link then false else if '(' in link then true else open
  }

  /**
   * The names the grouping loop appends, from the state (`open`, `run`):
   * a link extends the open run (or starts a new one), and the run is
   * appended as a name once no run is left open.
   */
  function Groups(links: seq<string>, open: bool, run: string): seq<string>
    decreases |links|
  {
    if links == [] then []
    else
      var run' := if open then run + "-" + links[0] else links[0];
      if StillOpen(open, links[0]) then Groups(links[1..], true, run')
      else [run'] + Groups(links[1..], false, run')
  }

  /** The run still open when the links run out, which the loop drops. */
  function Trailing(links: seq<string>, open: bool, run: string): (r: seq<string>)
    ensures |r| <= 1
    decreases |links|
  {
    if links == [] then (if open then [run] else [])
    else
      var run' := if open then run + "-" + links[0] else links[0];
      Trailing(links[1..], StillOpen(open, links[0]), run')
  }

  /** The grouping loop of `KernelConstructor`, over `rname`, `bflag` and `names`. */
  method GroupLinks(links: seq<string>) returns (names: seq<string>)
    ensures names == Groups(links, false, "")
  {
    names := [];
    var bflag := false;
    var rname := "";
    var jj := 0;
    while jj < |links|
      invariant 0 <= jj <= |links|
      invariant names + Groups(links[jj..], bflag, rname) == Groups(links, false, "")
    {
      assert links[jj..][1..] == links[jj + 1..];
      rname := if !bflag then links[jj] else rname + "-" + links[jj];
      if '(' in links[jj] {
        bflag := true;
      }
      if ')' in links[jj] {
        bflag := false;
      }
      if !bflag {
        names := names + [rname];
      }
      jj := jj + 1;
    }
    assert links[jj..] == [];
  }

  /** At least one item between the names and the trailing run. */
  lemma {:induction false} GroupsNonEmpty(links: seq<string>, open: bool, run: string)
    requires links != [] || open
    ensures Groups(links, open, run) + Trailing(links, open, run) != []
    decreases |links|
  {
    if links != [] {
      var run' := if open then run + "-" + links[0] else links[0];
      if StillOpen(open, links[0]) {
        GroupsNonEmpty(links[1..], true, run');
      }
    }
  }

  /**
   * Re-joining: the names followed by the dropped trailing run join back to
   * the links, after the open run if there was one.
   */
  lemma {:induction false} GroupsJoin(links: seq<string>, open: bool, run: string)
    requires links != []
    ensures Join(Groups(links, open, run) + Trailing(links, open, run), "-")
         == (if open then run + "-" else "") + Join(links, "-")
    decreases |links|
  {
    var l, rest := links[0], links[1..];
    var run' := if open then run + "-" + l else l;
    var pre := if open then run + "-" else "";
    assert run' == pre + l;
    GroupsStep(links, open, run);
    if rest == [] {
      assert Join(links, "-") == l;
    } else {
      assert links == [l] + rest;
      var still := StillOpen(open, l);
      var tail := Groups(rest, still, run') + Trailing(rest, still, run');
      GroupsJoin(rest, still, run');
      if still {
        JoinOpenRun(run', pre, l, rest, tail);
      } else {
        GroupsNonEmpty(rest, false, run');
        JoinClosedRun(run', pre, l, rest, tail);
      }
    }
  }

  /** The re-join when the first link leaves the run open. */
  lemma {:induction false} JoinOpenRun(run': string, pre: string, l: string, rest: seq<string>, tail: seq<string>)
    requires run' == pre + l && rest != [] && Join(tail, "-") == run' + "-" + Join(rest, "-")
    ensures Join(tail, "-") == pre + Join([l] + rest, "-")
  {
    JoinCons(l, rest, "-");
  }

  /** The re-join when the first link closes the run into a name. */
  lemma {:induction false} JoinClosedRun(run': string, pre: string, l: string, rest: seq<string>, tail: seq<string>)
    requires run' == pre + l && rest != [] && tail != [] && Join(tail, "-") == Join(rest, "-")
    ensures Join([run'] + tail, "-") == pre + Join([l] + rest, "-")
  {
    JoinCons(run', tail, "-");
    JoinCons(l, rest, "-");
  }

  /** One step of the grouping, names and trailing run together. */
  lemma {:induction false} GroupsStep(links: seq<string>, open: bool, run: string)
    requires links != []
    ensures var run' := if open then run + "-" + links[0] else links[0];
      Groups(links, open, run) + Trailing(links, open, run)
      == (if links[1..] == [] then [run']
          else if StillOpen(open, links[0]) then Groups(links[1..], true, run') + Trailing(links[1..], true, run')
          else [run'] + (Groups(links[1..], false, run') + Trailing(links[1..], false, run')))
  {
  }

  /** No part of a join is longer than the join. */
  lemma {:induction false} PartShorter(parts: seq<string>, sep: string, i: nat)
    requires i < |parts|
    ensures |parts[i]| <= |Join(parts, sep)|
  {
    if i > 0 {
      PartShorter(parts[1..], sep, i - 1);
    }
  }

  /** Every grouped name is at most as long as the children text. */
  lemma {:induction false} GroupsShort(body: string)
    ensures forall i :: 0 <= i < |Groups(Split(body, '-'), false, "")| ==> |Groups(Split(body, '-'), false, "")[i]| <= |body|
  {
    var links := Split(body, '-');
    var g := Groups(links, false, "");
    var all := g + Trailing(links, false, "");
    GroupsJoin(links, false, "");
    JoinSplit(body, '-');
    forall i | 0 <= i < |g| ensures |g[i]| <= |body| {
      assert all[i] == g[i];
      PartShorter(all, "-", i);
    }
  }

  // ----------------------------------------------------------------------
  // The parser
  // ----------------------------------------------------------------------

  /**
   * A bracket-free name: one of the eight primitive names exactly, or `Gw`
   * followed by the warping-function name (`C`, `IG`, anything else for
   * none). `re.search(r'^Gw(.*)$', name)` finds nothing when a line break
   * other than a final one follows `Gw`, and `.group(1)` on that raises
   * `AttributeError`.
   */
  function LeafOf(name: string): (r: Result<Option<Tree>>)
    ensures r.Ok? && r.value.Some? ==> r.value.value.Leaf? || r.value.value.Gibbs?
    ensures r.Ok? && r.value.Some? && r.value.value.Leaf? ==> Exact(name, Code(r.value.value.kind))
  {
    if Exact(name, "C") then Ok(Some(Leaf(Constant)))
    else if Exact(name, "n") then Ok(Some(Leaf(Noise)))
    else if Exact(name, "L") then Ok(Some(Leaf(Linear)))
    else if Exact(name, "P") then Ok(Some(Leaf(PolyOrder)))
    else if Exact(name, "SE") then Ok(Some(Leaf(SquaredExp)))
    else if Exact(name, "RQ") then Ok(Some(Leaf(RationalQuadratic)))
    else if Exact(name, "MH") then Ok(Some(Leaf(MaternHI)))
    else if Exact(name, "NN") then Ok(Some(Leaf(NeuralNet)))
    else if StartsWith(name, "Gw") then
      StartsWithSpec(name, "Gw");
      match LineBody(name[2..])
      case None => Err(AttributeError)
      case Some(w) =>
        Ok(Some(Gibbs(Warping(w))))
    else Ok(None)
  }

  /** The warping function a `Gw` suffix names: `C`, `IG`, or none. */
  function Warping(w: string): Option<Warp>
  {
    if w == "C" then Some(ConstantWarp) else if w == "IG" then Some(InverseGaussianWarp) else None
  }

  /**
   * `KernelConstructor(name)`: a name of the form `Op(...)` has its
   * children text split on `-` and grouped, every child parsed in turn
   * (the first exception wins), and becomes an operator node when the text
   * before the bracket is exactly `Sum`, `Prod` or `Sym` (it holds no line
   * break, so the `$` of those patterns plays no part), and `None`
   * otherwise; any other name is a leaf name.
   */
  function Parse(name: string): (r: Result<Option<Tree>>)
    decreases |name|, 1, 0
  {
    match BracketSplit(name)
    case None => LeafOf(name)
    case Some((head, body)) =>
      var names := Groups(Split(body, '-'), false, "");
      GroupsShort(body);
      match ParseAll(names, |name|)
      case Err(e) => Err(e)
      case Ok(kk) =>
        Ok(if head == "Sum" then Some(Node(SumOp, kk))
           else if head == "Prod" then Some(Node(ProductOp, kk))
           else if head == "Sym" then Some(Node(SymmetricOp, kk))
           else None)
  }

  function ParseAll(names: seq<string>, bound: nat): (r: Result<seq<Option<Tree>>>)
    requires forall i :: 0 <= i < |names| ==> |names[i]| < bound
    ensures r.Ok? ==> |r.value| == |names|
    decreases bound, 0, |names|
  {
    if names == [] then Ok([])
    else
      match Parse(names[0])
      case Err(e) => Err(e)
      case Ok(t0) =>
        match ParseAll(names[1..], bound)
        case Err(e) => Err(e)
        case Ok(rest) => Ok([t0] + rest)
  }

  // ----------------------------------------------------------------------
  // Serialisation and the round trip
  // ----------------------------------------------------------------------

  function WarpName(w: Option<Warp>): string
  {
    match w
    case None => ""
    case Some(ConstantWarp) => "C"
    case Some(InverseGaussianWarp) => "IG"
  }

  /** A tree every node of which has all its children. */
  predicate Full(t: Tree)
    decreases t
  {
    match t
    case Leaf(kind) => kind != GibbsGaussianLS
    case Gibbs(_) => true
    case Node(_, cs) => forall i :: 0 <= i < |cs| ==> cs[i].Some? && Full(cs[i].value)
  }

  /** The codename of a tree: `Op(` + the children's codenames joined by `-` + `)`. */
  function Serialise(t: Tree): (s: string)
    requires Full(t)
    decreases t, 1
  {
    match t
    case Leaf(kind) => Code(kind)
    case Gibbs(w) => "Gw" + WarpName(w)
    case Node(op, cs) => OpName(op) + "(" + Join(ChildCodes(t, 0), "-") + ")"
  }

  /** The codenames of the children of node `t` from position `from` on. */
  function ChildCodes(t: Tree, from: nat): (r: seq<string>)
    requires t.Node? && Full(t) && from <= |t.children|
    ensures |r| == |t.children| - from
    decreases t, 0, |t.children| - from
  {
    if from == |t.children| then []
    else [Serialise(t.children[from].value)] + ChildCodes(t, from + 1)
  }

  lemma {:induction false} ChildCodesAt(t: Tree, from: nat, i: nat)
    requires t.Node? && Full(t) && from + i < |t.children|
    ensures ChildCodes(t, from)[i] == Serialise(t.children[from + i].value)
    decreases i
  {
    if i > 0 {
      ChildCodesAt(t, from + 1, i - 1);
    }
  }

  /**
   * A child text the grouping keeps whole: a single link that opens no run,
   * or links whose first opens a run that only the last one closes.
   */
  predicate Groupable(c: string)
  {
    var ps := Split(c, '-');
    if |ps| == 1 then '(' in c ==> ')' in c
    else '(' in ps[0] && (forall i :: 0 <= i < |ps| - 1 ==> ')' !in ps[i]) && ')' in ps[|ps| - 1]
  }


  /**
   * The trees whose codename parses back to them: every node has at least
   * one child, all present, each parsable and with a codename the grouping
   * keeps whole. Leaves and `Gibbs` leaves qualify, and so does a composite
   * child with no `-` after its first `)` (`Sum(SE-n)`, `Sym(Sum(SE-n))`),
   * but not one such as `Prod(Sum(SE-n)-L)`.
   */
  predicate Parsable(t: Tree)
    decreases t
  {
    Full(t) &&
    match t
    case Node(_, cs) =>
      && cs != []
      && (forall i :: 0 <= i < |cs| ==> Parsable(cs[i].value))
      && (forall i :: 0 <= i < |cs| ==> Groupable(Serialise(cs[i].value)))
    case _ => true
  }

  /** Codenames hold no line break. */
  lemma {:induction false} SerialiseNoNewline(t: Tree)
    requires Full(t)
    ensures '\n' !in Serialise(t)
    decreases t
  {
    if t.Node? {
      var ss := ChildCodes(t, 0);
      forall i | 0 <= i < |ss| ensures '\n' !in ss[i] {
        ChildCodesAt(t, 0, i);
        SerialiseNoNewline(t.children[i].value);
      }
      JoinAvoids(ss, "-", '\n');
    }
  }

  lemma {:induction false} GroupsAnyRun(links: seq<string>, r1: string, r2: string)
    ensures Groups(links, false, r1) == Groups(links, false, r2)
  {
    if links != [] {
      var run' := links[0];
      assert Groups(links, false, r1) == if StillOpen(false, links[0]) then Groups(links[1..], true, run') else [run'] + Groups(links[1..], false, run');
      assert Groups(links, false, r2) == if StillOpen(false, links[0]) then Groups(links[1..], true, run') else [run'] + Groups(links[1..], false, run');
    }
  }

  /** An open run absorbs links without `)` and closes at the first link with one. */
  lemma {:induction false} RunThrough(ps: seq<string>, rest: seq<string>, r: string)
    requires ps != []
    requires forall i :: 0 <= i < |ps| - 1 ==> ')' !in ps[i]
    requires ')' in ps[|ps| - 1]
    ensures Groups(ps + rest, true, r) == [r + "-" + Join(ps, "-")] + Groups(rest, false, "")
    decreases |ps|
  {
    var l := ps + rest;
    assert l[0] == ps[0];
    assert l[1..] == ps[1..] + rest;
    var run' := r + "-" + ps[0];
    if |ps| == 1 {
      assert l[1..] == rest;
      GroupsAnyRun(rest, run', "");
    } else {
      assert StillOpen(true, ps[0]);
      assert Groups(l, true, r) == Groups(ps[1..] + rest, true, run');
      var ps' := ps[1..];
      assert forall i :: 0 <= i < |ps'| - 1 ==> ps'[i] == ps[i + 1];
      assert ps'[|ps'| - 1] == ps[|ps| - 1];
      RunThrough(ps', rest, run');
      JoinCons(ps[0], ps', "-");
      assert [ps[0]] + ps' == ps;
      assert run' + "-" + Join(ps', "-") == r + "-" + (ps[0] + "-" + Join(ps', "-"));
    }
  }

  /** Links of which the first opens a run that only the last closes group into one name. */
  lemma {:induction false} GroupsRun(ps: seq<string>, rest: seq<string>)
    requires |ps| >= 2 && '(' in ps[0]
    requires forall i :: 0 <= i < |ps| - 1 ==> ')' !in ps[i]
    requires ')' in ps[|ps| - 1]
    ensures Groups(ps + rest, false, "") == [Join(ps, "-")] + Groups(rest, false, "")
  {
    var l := ps + rest;
    var ps' := ps[1..];
    assert l[0] == ps[0];
    assert l[1..] == ps' + rest;
    assert StillOpen(false, ps[0]);
    assert Groups(l, false, "") == Groups(ps' + rest, true, ps[0]);
    assert forall i :: 0 <= i < |ps'| - 1 ==> ps'[i] == ps[i + 1];
    assert ps'[|ps'| - 1] == ps[|ps| - 1];
    RunThrough(ps', rest, ps[0]);
    JoinCons(ps[0], ps', "-");
    assert [ps[0]] + ps' == ps;
  }

  /** The grouping of a Groupable child's links followed by more links yields that child first. */
  lemma {:induction false} GroupsAppend(c: string, rest: seq<string>)
    requires Groupable(c)
    ensures Groups(Split(c, '-') + rest, false, "") == [c] + Groups(rest, false, "")
  {
    var ps := Split(c, '-');
    JoinSplit(c, '-');
    if |ps| == 1 {
      var l := ps + rest;
      assert ps[0] == c;
      assert l[0] == c;
      assert l[1..] == rest;
      assert !StillOpen(false, c);
      GroupsAnyRun(rest, c, "");
    } else {
      GroupsRun(ps, rest);
    }
  }

  /** Grouping the links of Groupable children joined by `-` gives the children back. */
  lemma {:induction false} GroupsOfJoin(ss: seq<string>)
    requires ss != []
    requires forall i :: 0 <= i < |ss| ==> Groupable(ss[i])
    ensures Groups(Split(Join(ss, "-"), '-'), false, "") == ss
  {
    if |ss| == 1 {
      assert Join(ss, "-") == ss[0];
      GroupsAppend(ss[0], []);
      assert Split(ss[0], '-') + [] == Split(ss[0], '-');
    } else {
      var head, tail := ss[0], ss[1..];
      assert ss == [head] + tail;
      JoinCons(head, tail, "-");
      var rest := Split(Join(tail, "-"), '-');
      SplitAppend(head, '-', Join(tail, "-"));
      assert Split(Join(ss, "-"), '-') == Split(head, '-') + rest;
      assert Groupable(head);
      GroupsAppend(head, rest);
      assert forall i :: 0 <= i < |tail| ==> Groupable(tail[i]) by {
        forall i | 0 <= i < |tail| ensures Groupable(tail[i]) {
          assert tail[i] == ss[i + 1];
        }
      }
      GroupsOfJoin(tail);
    }
  }

  /** Names with different first letters are never `Exact` matches of each other. */
  lemma {:induction false} FirstDiffers(s: string, w: string)
    requires s != [] && w != [] && s[0] != w[0]
    ensures !Exact(s, w)
  {
    assert (w + "\n")[0] == w[0];
  }

  lemma {:induction false} PrimCodeLeaf(kind: PrimKind)
    requires kind != GibbsGaussianLS
    ensures '(' !in Code(kind)
    ensures LeafOf(Code(kind)) == Ok(Some(Leaf(kind)))
  {
    var s := Code(kind);
    match kind
    case Constant =>
    case Noise =>
      FirstDiffers(s, "C");
    case Linear =>
      FirstDiffers(s, "C");
      FirstDiffers(s, "n");
    case PolyOrder =>
      FirstDiffers(s, "C");
      FirstDiffers(s, "n");
      FirstDiffers(s, "L");
    case SquaredExp =>
      FirstDiffers(s, "C");
      FirstDiffers(s, "n");
      FirstDiffers(s, "L");
      FirstDiffers(s, "P");
    case RationalQuadratic =>
      FirstDiffers(s, "C");
      FirstDiffers(s, "n");
      FirstDiffers(s, "L");
      FirstDiffers(s, "P");
      FirstDiffers(s, "SE");
    case MaternHI =>
      FirstDiffers(s, "C");
      FirstDiffers(s, "n");
      FirstDiffers(s, "L");
      FirstDiffers(s, "P");
      FirstDiffers(s, "SE");
      FirstDiffers(s, "RQ");
    case NeuralNet =>
      FirstDiffers(s, "C");
      FirstDiffers(s, "n");
      FirstDiffers(s, "L");
      FirstDiffers(s, "P");
      FirstDiffers(s, "SE");
      FirstDiffers(s, "RQ");
      FirstDiffers(s, "MH");
  }

  lemma {:induction false} GibbsLeaf(w: Option<Warp>)
    ensures '(' !in "Gw" + WarpName(w)
    ensures LeafOf("Gw" + WarpName(w)) == Ok(Some(Gibbs(w)))
  {
    var s := "Gw" + WarpName(w);
    assert s[..2] == "Gw" && s[2..] == WarpName(w);
    GibbsName(s);
    assert '\n' !in WarpName(w);
    assert Warping(WarpName(w)) == w;
  }

  /** A `Gw` name is matched by no other codename and reads its suffix with `(.*)$`. */
  lemma {:induction false} GibbsName(s: string)
    requires |s| >= 2 && s[..2] == "Gw"
    ensures LeafOf(s) == match LineBody(s[2..]) case None => Err(AttributeError) case Some(w) => Ok(Some(Gibbs(Warping(w))))
  {
    NoShortCode(s);
    StartsWithSpec(s, "Gw");
  }

  lemma {:induction false} NoShortCode(s: string)
    requires s != [] && s[0] == 'G'
    ensures !Exact(s, "C") && !Exact(s, "n") && !Exact(s, "L") && !Exact(s, "P")
    ensures !Exact(s, "SE") && !Exact(s, "RQ") && !Exact(s, "MH") && !Exact(s, "NN")
  {
    FirstDiffers(s, "C");
    FirstDiffers(s, "n");
    FirstDiffers(s, "L");
    FirstDiffers(s, "P");
    FirstDiffers(s, "SE");
    FirstDiffers(s, "RQ");
    FirstDiffers(s, "MH");
    FirstDiffers(s, "NN");
  }

  /** `ParseAll` succeeds with `kk` when each name parses to the matching entry. */
  lemma {:induction false} ParseAllEach(names: seq<string>, bound: nat, kk: seq<Option<Tree>>)
    requires forall i :: 0 <= i < |names| ==> |names[i]| < bound
    requires |kk| == |names|
    requires forall i :: 0 <= i < |names| ==> Parse(names[i]) == Ok(kk[i])
    ensures ParseAll(names, bound) == Ok(kk)
    decreases |names|
  {
    if names != [] {
      assert Parse(names[0]) == Ok(kk[0]);
      ParseAllEach(names[1..], bound, kk[1..]);
      assert [kk[0]] + kk[1..] == kk;
    }
  }

  /** An operator name whose grouped children parse to `kk` gives a node with those children. */
  lemma {:induction false} ParseOperator(op: OpKind, body: string, kk: seq<Option<Tree>>)
    requires '\n' !in body
    requires |kk| == |Groups(Split(body, '-'), false, "")|
    requires forall i :: 0 <= i < |kk| ==> Parse(Groups(Split(body, '-'), false, "")[i]) == Ok(kk[i])
    ensures Parse(OpName(op) + "(" + body + ")") == Ok(Some(Node(op, kk)))
  {
    var s := OpName(op) + "(" + body + ")";
    BracketSplitOf(OpName(op), body);
    GroupsShort(body);
    ParseAllEach(Groups(Split(body, '-'), false, ""), |s|, kk);
    assert "Sym"[1] != "Sum"[1];
  }

  /** Parsing the codename of a parsable tree gives the tree back. */
  lemma {:induction false} ParseSerialise(t: Tree)
    requires Parsable(t)
    ensures Parse(Serialise(t)) == Ok(Some(t))
    decreases t
  {
    match t
    case Leaf(kind) =>
      PrimCodeLeaf(kind);
    case Gibbs(w) =>
      GibbsLeaf(w);
    case Node(op, cs) =>
      var ss := ChildCodes(t, 0);
      forall i | 0 <= i < |ss| ensures '\n' !in ss[i] && Groupable(ss[i]) && Parse(ss[i]) == Ok(cs[i]) {
        ChildCodesAt(t, 0, i);
        SerialiseNoNewline(cs[i].value);
        ParseSerialise(cs[i].value);
      }
      ParseJoined(op, ss, cs);
  }

  /** Children codenames that parse and that the grouping keeps whole, joined inside an operator. */
  lemma {:induction false} ParseJoined(op: OpKind, ss: seq<string>, cs: seq<Option<Tree>>)
    requires ss != [] && |cs| == |ss|
    requires forall i :: 0 <= i < |ss| ==> '\n' !in ss[i] && Groupable(ss[i]) && Parse(ss[i]) == Ok(cs[i])
    ensures Parse(OpName(op) + "(" + Join(ss, "-") + ")") == Ok(Some(Node(op, cs)))
  {
    var body := Join(ss, "-");
    JoinAvoids(ss, "-", '\n');
    GroupsOfJoin(ss);
    ParseOperator(op, body, cs);
  }

  lemma {:induction false} ParseNoise()
    ensures Parse("n") == Ok(Some(Leaf(Noise)))
  {
    PrimCodeLeaf(Noise);
  }

  /** Two single-line names the grouping keeps whole, joined by `-` as the children of an operator. */
  lemma {:induction false} TwoChildren(op: OpKind, s1: string, k1: Option<Tree>, s2: string, k2: Option<Tree>)
    requires '\n' !in s1 && '\n' !in s2 && Groupable(s1) && Groupable(s2)
    requires Parse(s1) == Ok(k1) && Parse(s2) == Ok(k2)
    ensures Parse(OpName(op) + "(" + (s1 + "-" + s2) + ")") == Ok(Some(Node(op, [k1, k2])))
  {
    var ss := [s1, s2];
    JoinPair(s1, s2);
    ParseJoined(op, ss, [k1, k2]);
  }

  lemma {:induction false} JoinPair(s1: string, s2: string)
    ensures Join([s1, s2], "-") == s1 + "-" + s2
  {
    assert [s1, s2][1..] == [s2];
  }

  /** `'Sum(' + name + '-n)'`: adding a noise term to a parsable kernel's codename parses as that sum. */
  lemma {:induction false} NoiseAppended(t: Tree)
    requires Parsable(t) && Groupable(Serialise(t))
    ensures Parse(OpName(SumOp) + "(" + (Serialise(t) + "-" + Code(Noise)) + ")") == Ok(Some(Node(SumOp, [Some(t), Some(Leaf(Noise))])))
  {
    var s := Serialise(t);
    ParseSerialise(t);
    SerialiseNoNewline(t);
    ParseNoise();
    assert Split("n", '-') == ["n"];
    TwoChildren(SumOp, s, Some(t), "n", Some(Leaf(Noise)));
  }

  /** The grouped names hold no character the children text lacks. */
  lemma {:induction false} GroupsAvoid(body: string, c: char)
    requires c !in body
    ensures forall i :: 0 <= i < |Groups(Split(body, '-'), false, "")| ==> c !in Groups(Split(body, '-'), false, "")[i]
  {
    var links := Split(body, '-');
    var g := Groups(links, false, "");
    var all := g + Trailing(links, false, "");
    GroupsJoin(links, false, "");
    JoinSplit(body, '-');
    PartsAvoid(all, "-", c);
    assert forall i :: 0 <= i < |g| ==> g[i] == all[i];
  }

  /** Parsing fails only on a line break; on a single-line name it always succeeds. */
  lemma {:induction false} ParseTotal(name: string)
    requires '\n' !in name
    ensures Parse(name).Ok?
    decreases |name|, 1
  {
    match BracketSplit(name)
    case None =>
      if StartsWith(name, "Gw") {
        StartsWithSpec(name, "Gw");
        assert '\n' !in name[2..];
      }
    case Some((head, body)) =>
      var names := Groups(Split(body, '-'), false, "");
      GroupsShort(body);
      GroupsAvoid(body, '\n');
      ParseAllTotal(names, |name|);
  }

  lemma {:induction false} ParseAllTotal(names: seq<string>, bound: nat)
    requires forall i :: 0 <= i < |names| ==> |names[i]| < bound && '\n' !in names[i]
    ensures ParseAll(names, bound).Ok?
    decreases bound, 0, |names|
  {
    if names != [] {
      ParseTotal(names[0]);
      ParseAllTotal(names[1..], bound);
    }
  }

  /** `re.search(r'^Gw(.*)$', name)` finds nothing when a line break is not the last character, and `.group(1)` raises. */
  lemma {:induction false} GibbsLineBreak(x: string)
    requires '(' !in x && x != [] && x[|x| - 1] != '\n'
    ensures Parse("Gw\n" + x) == Err(AttributeError)
  {
    var t := "\n" + x;
    var s := "Gw" + t;
    assert t[0] == '\n' && t[|t| - 1] == x[|x| - 1];
    assert s[..2] == "Gw" && s[2..] == t;
    assert '(' !in s by {
      assert forall i :: 0 <= i < |s| ==> s[i] == 'G' || s[i] == 'w' || s[i] == '\n' || s[i] == x[i - 3];
    }
    assert s == "Gw\n" + x;
    InnerLineBreak(t);
    GibbsNoMatch(s);
  }

  lemma {:induction false} GibbsNoMatch(s: string)
    requires '(' !in s && |s| >= 2 && s[..2] == "Gw" && LineBody(s[2..]).None?
    ensures Parse(s) == Err(AttributeError)
  {
    ParseLeafName(s);
    GibbsName(s);
  }

  /** A name without `(` is a leaf name. */
  lemma {:induction false} ParseLeafName(s: string)
    requires '(' !in s
    ensures Parse(s) == LeafOf(s)
  {
  }

  /** `(.*)$` does not match across a line break that is not the last character. */
  lemma {:induction false} InnerLineBreak(t: string)
    requires |t| >= 2 && t[0] == '\n' && t[|t| - 1] != '\n'
    ensures LineBody(t).None?
  {
    assert t[0] in t;
  }

  /** A text before the bracket other than exactly `Sum`, `Prod` or `Sym` gives no kernel. */
  lemma {:induction false} UnknownOperator(head: string, body: string)
    requires '(' !in head && '\n' !in head && '\n' !in body
    requires head != "Sum" && head != "Prod" && head != "Sym"
    ensures Parse(head + "(" + body + ")") == Ok(None)
  {
    BracketSplitOf(head, body);
    ParseTotal(head + "(" + body + ")");
  }

  /**
   * A composite child with a `-` after its first `)` is cut there: in
   * `Sym(Prod(Sum(SE-n)-L))` the children text groups into
   * `Prod(Sum(SE-n)` and `L)`.
   */
  lemma {:induction false} GroupsCut()
    ensures Groups(["Prod(Sum(SE", "n)", "L)"], false, "") == ["Prod(Sum(SE-n)", "L)"]
  {
    var ls := ["Prod(Sum(SE", "n)", "L)"];
    var a, b, c := ls[0], ls[1], ls[2];
    assert a[4] == '(' && ')' !in a;
    assert b[1] == ')' && c[1] == ')';
    assert StillOpen(false, a) && !StillOpen(true, b) && !StillOpen(false, c);
    assert ls[1..] == [b, c] && [b, c][1..] == [c] && [c][1..] == ls[..0];
    assert Groups([c], false, b) == [c];
    assert Groups([b, c], true, a) == [a + "-" + b] + Groups([c], false, a + "-" + b);
    assert Groups(ls, false, "") == Groups([b, c], true, a);
    assert a + "-" + b == "Prod(Sum(SE-n)";
  }

  // ----------------------------------------------------------------------
  // KernelReconstructor
  // ----------------------------------------------------------------------

  /** What `KernelReconstructor` assigns to the kernel's `constants` and `hyperparameters`, in that order. */
  datatype Stored = Stored(constants: Option<seq<real>>, hyperparameters: Option<seq<real>>)

  /**
   * The flat parameter vector `pars` (absent when it is not a list, tuple
   * or array) against a kernel with `nhyp` hyperparameters and `ncst`
   * constants: the constants are taken from after the hyperparameters when
   * the kernel has some and the vector holds both, and the
   * hyperparameters whenever the vector is long enough for them.
   */
  function Restore(nhyp: nat, ncst: nat, pars: Option<seq<real>>): (r: Stored)
    ensures r.hyperparameters.Some? <==> pars.Some? && |pars.value| >= nhyp
    ensures r.constants.Some? <==> pars.Some? && ncst > 0 && |pars.value| >= nhyp + ncst
    ensures r.hyperparameters.Some? ==> r.hyperparameters.value == pars.value[..nhyp]
    ensures r.constants.Some? ==> r.hyperparameters.value + r.constants.value == pars.value[..nhyp + ncst]
  {
    match pars
    case None => Stored(None, None)
    case Some(p) =>
      Stored(if ncst > 0 && |p| >= nhyp + ncst then Some(p[nhyp..nhyp + ncst]) else None,
             if |p| >= nhyp then Some(p[..nhyp]) else None)
  }

  /** A reconstructed kernel: the parse tree (or none) and what was assigned to it. */
  datatype Rebuilt = Rebuilt(kernel: Option<Tree>, stored: Stored)

  /**
   * `KernelReconstructor(name, pars)`: the kernel `KernelConstructor` builds
   * from `name`, and the parameters stored into it; `sizes` gives the
   * numbers of hyperparameters and constants of a built kernel, which the
   * kernel classes decide.
   */
  function KernelReconstructor(name: string, sizes: Tree -> (nat, nat), pars: Option<seq<real>>): (r: Result<Rebuilt>)
    ensures r.Ok? && r.value.kernel.None? ==> r.value.stored == Stored(None, None)
    ensures r.Ok? <==> Parse(name).Ok?
    ensures r.Ok? ==> r.value.kernel == Parse(name).value
  {
    match Parse(name)
    case Err(e) => Err(e)
    case Ok(None) => Ok(Rebuilt(None, Stored(None, None)))
    case Ok(Some(t)) => Ok(Rebuilt(Some(t), Restore(sizes(t).0, sizes(t).1, pars)))
  }

  /**
   * Saving a kernel as its codename and `hyperparameters` followed by
   * `constants`, then reconstructing it, gives back the kernel with the
   * same hyperparameters and (when it has any) the same constants.
   */
  lemma {:induction false} ReconstructSaved(t: Tree, sizes: Tree -> (nat, nat), h: seq<real>, c: seq<real>)
    requires Parsable(t) && sizes(t) == (|h|, |c|)
    ensures KernelReconstructor(Serialise(t), sizes, Some(h + c))
         == Ok(Rebuilt(Some(t), Stored(if |c| > 0 then Some(c) else None, Some(h))))
  {
    ParseSerialise(t);
    RestoreSaved(h, c);
  }

  /** A vector saved as hyperparameters followed by constants is split back at the same place. */
  lemma {:induction false} RestoreSaved(h: seq<real>, c: seq<real>)
    ensures Restore(|h|, |c|, Some(h + c)) == Stored(if |c| > 0 then Some(c) else None, Some(h))
  {
    assert (h + c)[..|h|] == h;
    assert (h + c)[|h|..|h| + |c|] == c;
  }
}
