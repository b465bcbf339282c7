/** Attachment references and the relative links that replace them
    (wiki-mirror/src/markdown-projection.ts:621-693, wiki/src/attachments.ts:56-67). */
module Attachments {
  import opened Forest

  predicate Hex(c: char) {
    '0' <= c <= '9' || 'a' <= c <= 'f'
  }

  type Sha = s: string | |s| == 64 && forall i :: 0 <= i < |s| ==> Hex(s[i])
    witness seq(64, _ => '0')

  newtype Byte = x: int | 0 <= x < 256

  /** A rendered body: characters, `attachment:<sha>` references, and the links a mirror writes
      in their place. */
  datatype Token = Char(c: char) | Ref(sha: Sha) | Link(href: Path)
  type Body = seq<Token>

  datatype Content = Markdown(body: Body) | Blob(data: seq<Byte>)

  /** The attachment endpoint: the extension each digest's mime type gives, and the bytes it serves. */
  datatype Store = Store(extension: map<Sha, string>, bytes: map<Sha, seq<Byte>>)

  const ASSETS_DIR := ".assets"

  function AssetPath(store: Store, sha: Sha): (r: Path)
    ensures |r| == 2 && r[0] == ASSETS_DIR
  {
    [ASSETS_DIR, sha + (if sha in store.extension then store.extension[sha] else "")]
  }

  /** Digests have one length, so an asset's name gives its digest back. */
  lemma AssetPathsDiffer(store: Store, a: Sha, b: Sha)
    requires AssetPath(store, a) == AssetPath(store, b)
    ensures a == b
  {
    var x, y := AssetPath(store, a)[1], AssetPath(store, b)[1];
    assert a == x[..64] && b == y[..64];
  }

  /** The distinct references of a body, in order of first appearance. */
  function RefsIn(body: Body): (r: seq<Sha>)
    ensures forall s :: s in r <==> Ref(s) in body
    ensures forall i, j :: 0 <= i < j < |r| ==> r[i] != r[j]
  {
    if body == [] then []
    else
      var last := body[|body| - 1];
      var init := RefsIn(body[..|body| - 1]);
      assert body == body[..|body| - 1] + [last];
      if last.Ref? && last.sha !in init then init + [last.sha] else init
  }

  /** Every reference to `sha` becomes a link to `href`. */
  function Relink(body: Body, sha: Sha, href: Path): (r: Body)
    ensures |r| == |body|
  {
    seq(|body|, i requires 0 <= i < |body| => if body[i] == Ref(sha) then Link(href) else body[i])
  }

  // ----- relative paths -----

  function CommonPrefix(a: Path, b: Path): (k: nat)
    ensures k <= |a| && k <= |b| && a[..k] == b[..k]
  {
    if a != [] && b != [] && a[0] == b[0] then 1 + CommonPrefix(a[1..], b[1..]) else 0
  }

  function Ups(n: nat): (r: Path)
    ensures |r| == n
  {
    if n == 0 then [] else [".."] + Ups(n - 1)
  }

  /** The relative path from a directory to a file: up to their fork, then down. */
  function Relative(dir: Path, target: Path): Path {
    var k := CommonPrefix(dir, target);
    Ups(|dir| - k) + target[k..]
  }

  /** Follows a relative path from a directory. */
  function Follow(dir: Path, href: Path): Path
    decreases |href|
  {
    if href == [] then dir
    else if href[0] == ".." then Follow(if dir == [] then [] else dir[..|dir| - 1], href[1..])
    else Follow(dir + [href[0]], href[1..])
  }

  lemma {:induction false} FollowUps(dir: Path, n: nat, rest: Path)
    requires n <= |dir|
    ensures Follow(dir, Ups(n) + rest) == Follow(dir[..|dir| - n], rest)
  {
    if n == 0 {
      assert Ups(0) + rest == rest && dir[..|dir|] == dir;
    } else {
      assert (Ups(n) + rest)[1..] == Ups(n - 1) + rest;
      FollowUps(dir[..|dir| - 1], n - 1, rest);
      assert dir[..|dir| - 1][..|dir| - n] == dir[..|dir| - n];
    }
  }

  lemma {:induction false} FollowDown(dir: Path, rest: Path)
    requires forall k :: 0 <= k < |rest| ==> rest[k] != ".."
    ensures Follow(dir, rest) == dir + rest
    decreases |rest|
  {
    if rest != [] {
      FollowDown(dir + [rest[0]], rest[1..]);
      assert dir + [rest[0]] + rest[1..] == dir + rest;
    } else {
      assert dir + rest == dir;
    }
  }

  /** A relative link leads from its own directory back to its target. */
  lemma RelativeLeadsBack(dir: Path, target: Path)
    requires forall k :: 0 <= k < |target| ==> target[k] != ".."
    ensures Follow(dir, Relative(dir, target)) == target
  {
    var k := CommonPrefix(dir, target);
    FollowUps(dir, |dir| - k, target[k..]);
    FollowDown(dir[..k], target[k..]);
    assert target[..k] + target[k..] == target;
  }
}
