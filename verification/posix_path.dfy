/**
 * The part of pathlib's pure POSIX paths that upload validation relies on:
 * the components a path keeps and the final one, its `name`.
 */
module PosixPath {
  import opened Text

  /** A component pathlib keeps: neither empty (from a repeated, leading or trailing slash) nor `.`. */
  predicate Kept(c: string) {
    c != "" && c != "."
  }

  /** The text after a path's last slash, as a component list: itself when kept, else nothing. */
  function Tail(c: string): seq<string> {
    if Kept(c) then [c] else []
  }

  /**
   * The components pathlib keeps of a POSIX path: the texts between slashes,
   * in order, without the empty ones and without `.`. A `..` is kept.
   */
  function Parts(path: string): (ps: seq<string>)
    decreases |path|
  {
    var i := LastIndexOf(path, '/');
    var last := path[i + 1..];
    var init := if i < 0 then [] else Parts(path[..i]);
    if Kept(last) then init + [last] else init
  }

  /** Every component is kept and free of slashes. */
  lemma {:induction false} PartsShape(path: string, k: nat)
    requires k < |Parts(path)|
    ensures Kept(Parts(path)[k]) && !ContainsChar(Parts(path)[k], '/')
    decreases |path|
  {
    var i := LastIndexOf(path, '/');
    var last := path[i + 1..];
    var init := if i < 0 then [] else Parts(path[..i]);
    if k < |init| {
      PartsShape(path[..i], k);
    } else {
      forall j | 0 <= j < |last| ensures last[j] != '/' {
        assert last[j] == path[i + 1 + j];
      }
    }
  }

  /** The components before the last slash `i`, then the kept text after it, given as `pre` and `post`. */
  lemma PartsUnfold(path: string, i: nat, pre: string, post: string)
    requires LastIndexOf(path, '/') == i && pre == path[..i] && post == path[i + 1..]
    ensures Parts(path) == Parts(pre) + Tail(post)
  {
  }

  /** A text without a slash is one component: kept unless it is empty or `.`. */
  lemma PartsOfSegment(c: string)
    requires !ContainsChar(c, '/')
    ensures Parts(c) == Tail(c)
  {
    assert c[0..] == c;
  }

  /** The last slash of `a + "/" + b` is the last slash of `b`, or the joining one when `b` has none. */
  lemma LastSlashOfJoin(a: string, b: string)
    ensures LastIndexOf(a + "/" + b, '/') == |a| + 1 + LastIndexOf(b, '/')
  {
    var s := a + "/" + b;
    var n := |a| + 1 + LastIndexOf(b, '/');
    forall k | n < k < |s| ensures s[k] != '/' {
      assert s[k] == b[k - |a| - 1];
    }
    LastIndexOfAt(s, '/', n);
  }

  /** Cutting `a + "/" + b` at a position of `b`: the text after it, and the text before it. */
  lemma JoinSlices(a: string, b: string, j: int)
    requires -1 <= j < |b|
    ensures (a + "/" + b)[|a| + 1 + j + 1..] == b[j + 1..]
    ensures (a + "/" + b)[..|a| + 1 + j] == if j < 0 then a else a + "/" + b[..j]
  {
  }

  /** The last slash of `a + "/" + b` splits it into `a` or `a/b'`, where `b'` precedes `b`'s last slash, and `b`'s tail. */
  lemma PartsOfJoin(a: string, b: string)
    ensures var j := LastIndexOf(b, '/');
      Parts(a + "/" + b) == Parts(if j < 0 then a else a + "/" + b[..j]) + Tail(b[j + 1..])
  {
    var j := LastIndexOf(b, '/');
    LastSlashOfJoin(a, b);
    JoinSlices(a, b, j);
    PartsUnfold(a + "/" + b, |a| + 1 + j, if j < 0 then a else a + "/" + b[..j], b[j + 1..]);
  }

  /** A slash-free `b` after the joining slash adds its one component, if kept. */
  lemma PartsAppendSegment(a: string, b: string)
    requires LastIndexOf(b, '/') < 0
    ensures Parts(a + "/" + b) == Parts(a) + Parts(b)
  {
    PartsOfJoin(a, b);
    assert b[0..] == b;
    PartsOfSegment(b);
  }

  /** When `b` has a last slash at `j`, joining onto `a` splits at the same slash. */
  lemma PartsAppendStep(a: string, b: string, j: nat)
    requires LastIndexOf(b, '/') == j
    requires Parts(a + "/" + b[..j]) == Parts(a) + Parts(b[..j])
    ensures Parts(a + "/" + b) == Parts(a) + Parts(b)
  {
    PartsOfJoin(a, b);
    PartsUnfold(b, j, b[..j], b[j + 1..]);
    ConcatAssoc(Parts(a), Parts(b[..j]), Tail(b[j + 1..]));
  }

  /** Joining two paths with a slash concatenates their components. */
  lemma {:induction false} PartsAppend(a: string, b: string)
    ensures Parts(a + "/" + b) == Parts(a) + Parts(b)
    decreases |b|
  {
    var j := LastIndexOf(b, '/');
    if j < 0 {
      PartsAppendSegment(a, b);
    } else {
      PartsAppend(a, b[..j]);
      PartsAppendStep(a, b, j);
    }
  }

  /**
   * pathlib's `name`, computed from the right: the text after the last slash
   * when it is kept, otherwise the name of what precedes that slash, and ""
   * once no slash is left.
   */
  function BaseName(path: string): (n: string)
    ensures !ContainsChar(n, '/') && n != "."
    decreases |path|
  {
    var i := LastIndexOf(path, '/');
    var last := path[i + 1..];
    if Kept(last) then
      assert forall j :: 0 <= j < |last| ==> last[j] == path[i + 1 + j];
      last
    else if i < 0 then ""
    else BaseName(path[..i])
  }

  /** `n` is the last of the components `ps`, or "" when there are none. */
  predicate IsLastPart(ps: seq<string>, n: string) {
    if ps == [] then n == "" else n != "" && n == ps[|ps| - 1]
  }

  /** A kept text after the last slash `i` is both the name and the last component. */
  lemma BaseNameAtKeptLast(path: string, i: int, last: string)
    requires LastIndexOf(path, '/') == i && last == path[i + 1..] && Kept(last)
    ensures IsLastPart(Parts(path), BaseName(path))
  {
  }

  /** Otherwise both the name and the components are those of the text `pre` before that slash. */
  lemma BaseNameSkipsLast(path: string, i: nat, pre: string)
    requires LastIndexOf(path, '/') == i && pre == path[..i] && !Kept(path[i + 1..])
    ensures Parts(path) == Parts(pre) && BaseName(path) == BaseName(pre)
  {
  }

  /** With no slash and nothing kept, there is neither a name nor a component. */
  lemma BaseNameOfUnkept(path: string)
    requires LastIndexOf(path, '/') < 0 && !Kept(path)
    ensures Parts(path) == [] && BaseName(path) == ""
  {
    assert path[0..] == path;
  }

  /** The name is the last kept component, and "" exactly when there is none. */
  lemma {:induction false} BaseNameIsLastPart(path: string)
    ensures IsLastPart(Parts(path), BaseName(path))
    decreases |path|
  {
    var i := LastIndexOf(path, '/');
    if Kept(path[i + 1..]) {
      BaseNameAtKeptLast(path, i, path[i + 1..]);
    } else if i < 0 {
      assert path[i + 1..] == path;
      BaseNameOfUnkept(path);
    } else {
      BaseNameSkipsLast(path, i, path[..i]);
      BaseNameIsLastPart(path[..i]);
    }
  }

  /**
   * The name of a joined path is the name of its right part, unless that part
   * has no kept component (it is empty, `.` or only slashes), in which case the
   * left part names it.
   */
  lemma BaseNameOfJoin(a: string, b: string)
    ensures BaseName(a + "/" + b) == if Parts(b) != [] then BaseName(b) else BaseName(a)
  {
    var x, y := Parts(a), Parts(b);
    PartsAppend(a, b);
    BaseNameIsLastPart(a + "/" + b);
    BaseNameIsLastPart(a);
    BaseNameIsLastPart(b);
    if y != [] {
      assert (x + y)[|x + y| - 1] == y[|y| - 1];
    } else {
      assert x + y == x;
    }
  }

  /** A slash-free text names itself, unless it is empty or `.`. */
  lemma BaseNameOfSegment(c: string)
    requires !ContainsChar(c, '/')
    ensures BaseName(c) == if Kept(c) then c else ""
  {
    PartsOfSegment(c);
    BaseNameIsLastPart(c);
  }

  /** The spellings `p/.`, `p/` and `p/./q` as joins with a slash. */
  lemma SlashJoins(p: string, q: string)
    ensures p + "/" + "." == p + "/." && p + "/" + "" == p + "/"
    ensures p + "/./" + q == (p + "/.") + "/" + q
  {
  }

  /** An empty or `.` text after the joining slash adds no component. */
  lemma PartsJoinUnkept(p: string, c: string)
    requires !Kept(c)
    ensures Parts(p + "/" + c) == Parts(p)
  {
    assert !ContainsChar(c, '/');
    PartsOfSegment(c);
    assert Parts(c) == [];
    PartsAppend(p, c);
    assert Parts(p) + [] == Parts(p);
  }

  /** So a trailing `/.` adds no component. */
  lemma PartsTrailingDot(p: string)
    ensures Parts(p + "/.") == Parts(p)
  {
    SlashJoins(p, "");
    PartsJoinUnkept(p, ".");
  }

  /** Nor does a trailing slash. */
  lemma PartsTrailingSlash(p: string)
    ensures Parts(p + "/") == Parts(p)
  {
    SlashJoins(p, "");
    PartsJoinUnkept(p, "");
  }

  /** An inner `/./` is skipped as if it were one slash. */
  lemma PartsInnerDot(p: string, q: string)
    ensures Parts(p + "/./" + q) == Parts(p + "/" + q)
  {
    var d := p + "/.";
    SlashJoins(p, q);
    PartsAppend(d, q);
    PartsTrailingDot(p);
    PartsAppend(p, q);
  }

  /**
   * So a trailing `/.` or `/` leaves the name that of the path before it,
   * and an inner `/./` changes nothing.
   */
  lemma BaseNameIgnoresDotComponents(p: string, q: string)
    ensures BaseName(p + "/.") == BaseName(p)
    ensures BaseName(p + "/") == BaseName(p)
    ensures BaseName(p + "/./" + q) == BaseName(p + "/" + q)
  {
    PartsTrailingDot(p);
    PartsTrailingSlash(p);
    PartsInnerDot(p, q);
    BaseNameIsLastPart(p);
    BaseNameIsLastPart(p + "/.");
    BaseNameIsLastPart(p + "/");
    BaseNameIsLastPart(p + "/./" + q);
    BaseNameIsLastPart(p + "/" + q);
  }
}
