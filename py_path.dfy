/** The `os.path` functions the search core relies on. String paths use the
    POSIX separator '/'; the Windows forms that matter (drives, case-insensitive
    comparison) appear only in the structured `AbsPath`. */
module PyPath {
  import opened Wrappers
  import opened PyString

  datatype Platform = Posix | Windows

  /** `s.rfind(c)`. */
  function LastIndex(s: string, c: char): (r: int)
    ensures -1 <= r < |s|
    ensures r >= 0 ==> s[r] == c
    ensures forall i | r < i < |s| :: s[i] != c
  {
    if s == [] then -1
    else if s[|s| - 1] == c then |s| - 1
    else LastIndex(s[..|s| - 1], c)
  }

  lemma {:induction false} LastIndexAppend(a: string, b: string, c: char)
    requires c !in b
    ensures LastIndex(a + b, c) == LastIndex(a, c)
    decreases |b|
  {
    if b == [] {
      assert a + b == a;
    } else {
      var ab := a + b;
      assert ab[|ab| - 1] == b[|b| - 1];
      assert ab[..|ab| - 1] == a + b[..|b| - 1];
      LastIndexAppend(a, b[..|b| - 1], c);
    }
  }

  /** `os.path.basename(p)`: what follows the last '/'. */
  function Basename(p: string): (r: string)
    ensures '/' !in r
  {
    p[LastIndex(p, '/') + 1..]
  }

  /** `os.path.join(a, b)` on POSIX. */
  function Join(a: string, b: string): string
  {
    if b != [] && b[0] == '/' then b
    else if a == [] || a[|a| - 1] == '/' then a + b
    else a + "/" + b
  }

  lemma BasenameOfJoin(root: string, name: string)
    requires '/' !in name
    ensures Basename(Join(root, name)) == name
  {
    var j := Join(root, name);
    if root == [] || root[|root| - 1] == '/' {
      LastIndexAppend(root, name, '/');
      assert j[|root|..] == name;
    } else {
      assert j == (root + "/") + name;
      LastIndexAppend(root + "/", name, '/');
      assert j[|root| + 1..] == name;
    }
  }

  /** The extension half of `os.path.splitext(p)`: the last component's text
      from its last dot on, provided some character other than a dot comes
      before that dot; otherwise "". */
  function SplitExt(p: string): (r: string)
    ensures r != [] ==> r[0] == '.' && '.' !in r[1..]
  {
    var b := Basename(p);
    var d := LastIndex(b, '.');
    if d > 0 && exists j | 0 <= j < d :: b[j] != '.' then b[d..] else ""
  }

  /** A path as `os.path.abspath` leaves it: its drive ("" on POSIX) and its
      components, none of them empty. */
  datatype AbsPath = AbsPath(drive: string, parts: seq<string>)

  /** `os.path.basename` of an absolute path: its last component. */
  function AbsBasename(p: AbsPath): string
  {
    if p.parts == [] then "" else p.parts[|p.parts| - 1]
  }

  /** The path as text, with '/' between components. */
  function Render(p: AbsPath): string
  {
    p.drive + "/" + JoinWithSlash(p.parts)
  }

  function JoinWithSlash(parts: seq<string>): string
  {
    if parts == [] then ""
    else if |parts| == 1 then parts[0]
    else parts[0] + "/" + JoinWithSlash(parts[1..])
  }

  /** `os.path.normcase` of a drive or component: lower-cased on Windows,
      unchanged on POSIX. */
  function NormCase(db: CharDb, platform: Platform, s: string): string
  {
    if platform == Windows then Lower(db, s) else s
  }

  /** Number of leading components on which `a` and `b` agree after `normcase`. */
  function CommonPrefixLength(db: CharDb, platform: Platform, a: seq<string>, b: seq<string>): (n: nat)
    ensures n <= |a| && n <= |b|
    ensures forall i | 0 <= i < n :: NormCase(db, platform, a[i]) == NormCase(db, platform, b[i])
    ensures n < |a| && n < |b| ==> NormCase(db, platform, a[n]) != NormCase(db, platform, b[n])
  {
    if a == [] || b == [] || NormCase(db, platform, a[0]) != NormCase(db, platform, b[0]) then 0
    else 1 + CommonPrefixLength(db, platform, a[1..], b[1..])
  }

  /** `os.path.commonpath([a, b])` of two absolute paths: the leading components
      they share, spelt as in `a`; None where Windows raises ValueError
      because the drives differ. */
  function CommonPath(db: CharDb, platform: Platform, a: AbsPath, b: AbsPath): Option<AbsPath>
  {
    if NormCase(db, platform, a.drive) != NormCase(db, platform, b.drive) then None
    else Some(AbsPath(a.drive, a.parts[..CommonPrefixLength(db, platform, a.parts, b.parts)]))
  }

  /** `os.path.normcase(p) == os.path.normcase(q)`, compared component by component. */
  predicate SameNormCase(db: CharDb, platform: Platform, p: AbsPath, q: AbsPath)
  {
    && NormCase(db, platform, p.drive) == NormCase(db, platform, q.drive)
    && |p.parts| == |q.parts|
    && forall i | 0 <= i < |p.parts| :: NormCase(db, platform, p.parts[i]) == NormCase(db, platform, q.parts[i])
  }
}
