/**
 * Equality of `std::path::PathBuf`, on Unix-style paths: two paths are equal
 * when their lists of components are. A leading `/` is the root, `..` is the
 * parent, and a `.` is the current directory only at the start of a relative
 * path; empty pieces (repeated or trailing separators) and every other `.`
 * are not components.
 */
module Paths {

  datatype Component = RootDir | CurDir | ParentDir | Normal(name: string)

  /** The pieces of `s` between `/` separators, empty pieces included. */
  function Split(s: string): (r: seq<string>)
    ensures |r| >= 1
    ensures forall i :: 0 <= i < |r| ==> '/' !in r[i]
    decreases |s|
  {
    if s == [] then [""]
    else
      var t := Split(s[1..]);
      if s[0] == '/' then [""] + t else [[s[0]] + t[0]] + t[1..]
  }

  /** Pieces as components: empty pieces and `.` vanish, `..` is the parent directory. */
  function Named(pieces: seq<string>): (r: seq<Component>)
    requires forall i :: 0 <= i < |pieces| ==> '/' !in pieces[i]
    ensures forall i :: 0 <= i < |r| ==> r[i].ParentDir? || r[i].Normal?
    ensures forall i :: 0 <= i < |r| && r[i].Normal? ==>
      r[i].name != "" && r[i].name != "." && r[i].name != ".." && '/' !in r[i].name
  {
    if pieces == [] then []
    else
      var rest := Named(pieces[1..]);
      if pieces[0] == "" || pieces[0] == "." then rest
      else if pieces[0] == ".." then [ParentDir] + rest
      else [Normal(pieces[0])] + rest
  }

  /**
   * The components of the path cut into `pieces`. The path starts with `/`
   * exactly when its first piece is empty and others follow it.
   */
  function FromPieces(pieces: seq<string>): seq<Component>
    requires |pieces| >= 1 && forall i :: 0 <= i < |pieces| ==> '/' !in pieces[i]
  {
    if |pieces| > 1 && pieces[0] == "" then [RootDir] + Named(pieces[1..])
    else if pieces[0] == "." then [CurDir] + Named(pieces[1..])
    else Named(pieces)
  }

  /**
   * `Path::components`: a root or current directory can only come first,
   * and no named component is empty, `.`, `..` or holds a separator.
   */
  function Components(p: string): (r: seq<Component>)
    ensures forall i :: 0 < i < |r| ==> r[i].ParentDir? || r[i].Normal?
    ensures forall i :: 0 <= i < |r| && r[i].Normal? ==>
      r[i].name != "" && r[i].name != "." && r[i].name != ".." && '/' !in r[i].name
  {
    FromPieces(Split(p))
  }

  /** `PathBuf` equality. */
  predicate SamePath(a: string, b: string)
  {
    Components(a) == Components(b)
  }

  /** Splitting at a separator splits the two sides independently. */
  lemma {:induction false} SplitAppend(x: string, y: string)
    ensures Split(x + "/" + y) == Split(x) + Split(y)
    decreases |x|
  {
    if x == [] {
      assert x + "/" + y == "/" + y;
      assert ("/" + y)[1..] == y;
    } else {
      assert (x + "/" + y)[1..] == x[1..] + "/" + y;
      SplitAppend(x[1..], y);
    }
  }

  lemma {:induction false} NamedAppend(a: seq<string>, b: seq<string>)
    requires forall i :: 0 <= i < |a| ==> '/' !in a[i]
    requires forall i :: 0 <= i < |b| ==> '/' !in b[i]
    ensures Named(a + b) == Named(a) + Named(b)
    decreases |a|
  {
    if a == [] {
      assert a + b == b;
    } else {
      var ab := a + b;
      assert ab[0] == a[0] && ab[1..] == a[1..] + b;
      NamedAppend(a[1..], b);
      if a[0] == "" || a[0] == "." {
        assert Named(ab) == Named(a[1..] + b);
        assert Named(a) == Named(a[1..]);
      } else if a[0] == ".." {
        assert Named(ab) == [ParentDir] + Named(a[1..] + b);
        assert Named(a) == [ParentDir] + Named(a[1..]);
      } else {
        assert Named(ab) == [Normal(a[0])] + Named(a[1..] + b);
        assert Named(a) == [Normal(a[0])] + Named(a[1..]);
      }
    }
  }

  /** Pieces that name the same components may follow any pieces interchangeably. */
  lemma NamedTail(a: seq<string>, b1: seq<string>, b2: seq<string>)
    requires forall i :: 0 <= i < |a| ==> '/' !in a[i]
    requires forall i :: 0 <= i < |b1| ==> '/' !in b1[i]
    requires forall i :: 0 <= i < |b2| ==> '/' !in b2[i]
    requires Named(b1) == Named(b2)
    ensures Named(a + b1) == Named(a + b2)
  {
    NamedAppend(a, b1);
    NamedAppend(a, b2);
  }

  /** Pieces that name the same components may follow the first piece interchangeably. */
  lemma FromPiecesTail(a: seq<string>, b1: seq<string>, b2: seq<string>)
    requires |a| >= 1 && forall i :: 0 <= i < |a| ==> '/' !in a[i]
    requires forall i :: 0 <= i < |b1| ==> '/' !in b1[i]
    requires forall i :: 0 <= i < |b2| ==> '/' !in b2[i]
    requires Named(b1) == Named(b2)
    requires (b1 == []) == (b2 == []) || |a| > 1 || a[0] != ""
    ensures FromPieces(a + b1) == FromPieces(a + b2)
  {
    var ab1, ab2 := a + b1, a + b2;
    assert ab1[0] == a[0] && ab2[0] == a[0];
    if a[0] == "" || a[0] == "." {
      assert ab1[1..] == a[1..] + b1 && ab2[1..] == a[1..] + b2;
      NamedTail(a[1..], b1, b2);
    } else {
      NamedTail(a, b1, b2);
    }
  }

  /** Splitting a string that starts with something other than a separator. */
  lemma SplitChar(c: char, s: string)
    requires c != '/'
    ensures Split([c] + s) == [[c] + Split(s)[0]] + Split(s)[1..]
  {
    assert ([c] + s)[1..] == s;
  }

  /** Splitting a string that starts with a separator. */
  lemma SplitSeparator(s: string)
    ensures Split("/" + s) == [""] + Split(s)
  {
    assert ("/" + s)[1..] == s;
  }

  /** A doubled separator is a single one: `img//a.png` is `img/a.png`. */
  lemma DoubledSeparator(x: string, y: string)
    ensures SamePath(x + "//" + y, x + "/" + y)
  {
    assert x + "//" + y == x + "/" + ("/" + y);
    SplitAppend(x, "/" + y);
    SplitAppend(x, y);
    assert ("/" + y)[1..] == y;
    assert Split("/" + y) == [""] + Split(y);
    assert ([""] + Split(y))[1..] == Split(y);
    FromPiecesTail(Split(x), [""] + Split(y), Split(y));
  }

  /** A `.` after a separator is no component: `a/./b` is `a/b`. */
  lemma CurDirDropped(x: string, y: string)
    ensures SamePath(x + "/./" + y, x + "/" + y)
  {
    var dotY := "." + "/" + y;
    assert x + "/./" + y == x + "/" + dotY;
    SplitAppend(x, dotY);
    SplitAppend(".", y);
    SplitAppend(x, y);
    assert "." == ['.'] + "";
    SplitChar('.', "");
    assert Split(dotY) == ["."] + Split(y);
    assert (["."] + Split(y))[1..] == Split(y);
    FromPiecesTail(Split(x), ["."] + Split(y), Split(y));
  }

  /** A trailing separator is ignored: `img/` is `img`. */
  lemma TrailingSeparator(x: string)
    requires x != ""
    ensures SamePath(x + "/", x)
  {
    assert x + "/" == x + "/" + "";
    SplitAppend(x, "");
    assert Split(x) + [] == Split(x);
    if x[0] != '/' {
      assert Split(x)[0] == [x[0]] + Split(x[1..])[0];
    }
    FromPiecesTail(Split(x), [""], []);
  }

  /** The root is a component: `/a` is not `a`. */
  lemma RootIsComponent()
    ensures !SamePath("/a", "a")
  {
    assert "a" == ['a'] + "";
    SplitChar('a', "");
    assert "/a" == "/" + "a";
    SplitSeparator("a");
    assert Components("/a")[0] == RootDir;
  }

  /** A leading `.` is a component: `./a` is not `a`. */
  lemma LeadingCurDirIsComponent()
    ensures !SamePath("./a", "a")
  {
    assert "a" == ['a'] + "";
    SplitChar('a', "");
    assert "/a" == "/" + "a";
    SplitSeparator("a");
    assert "./a" == ['.'] + "/a";
    assert Split("/a") == ["", "a"];
    SplitChar('.', "/a");
    assert ['.'] + "" == ".";
    assert Split("./a") == [".", "a"];
    assert Components("./a")[0] == CurDir;
  }

  /** `..` is a component and is not resolved: `a/../b` is not `b`. */
  lemma ParentDirIsComponent()
    ensures !SamePath("a/../b", "b")
  {
    assert "b" == ['b'] + "";
    SplitChar('b', "");
    assert "a" == ['a'] + "";
    SplitChar('a', "");
    assert "." == ['.'] + "";
    SplitChar('.', "");
    assert ".." == ['.'] + ".";
    SplitChar('.', ".");
    assert "a/../b" == "a" + "/" + (".." + "/" + "b");
    SplitAppend("a", ".." + "/" + "b");
    SplitAppend("..", "b");
    assert Split("a/../b") == ["a", "..", "b"];
    assert Named(["b"]) == [Normal("b")];
    assert |Named(["a", "..", "b"])| == 3;
  }
}
