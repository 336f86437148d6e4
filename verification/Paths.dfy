/** Cursor keys: where a transcript sits inside the transcripts directory. */
module Paths {
  import opened Text

  /** The last two components of a path; a path with fewer is its own key. */
  function Key(path: string): string {
    var parts := Split(StripRight(path, '/'), '/');
    if |parts| >= 2 then parts[|parts| - 2] + "/" + parts[|parts| - 1] else path
  }

  /** A key is already a key: re-reading a migrated cursor changes no name. */
  lemma KeyIdempotent(path: string)
    ensures Key(Key(path)) == Key(path)
  {
    var p := StripRight(path, '/');
    var parts := Split(p, '/');
    if |parts| >= 2 {
      var a, b := parts[|parts| - 2], parts[|parts| - 1];
      assert a in parts && b in parts;
      LastPartNonEmpty(p);
      TwoParts(a, b);
    }
  }

  lemma TwoParts(a: string, b: string)
    requires '/' !in a && '/' !in b && b != ""
    ensures Key(a + "/" + b) == a + "/" + b
  {
    hide Split;
    var k := a + "/" + b;
    SplitSepFree(a, '/');
    SplitSepFree(b, '/');
    SplitAppend(a, b, '/');
    assert k == a + ['/'] + b;
    assert k[|k| - 1] == b[|b| - 1];
    assert StripRight(k, '/') == k;
  }

  lemma {:induction false} LastPartNonEmpty(p: string)
    requires p != "" && p[|p| - 1] != '/'
    ensures Split(p, '/')[|Split(p, '/')| - 1] != ""
  {
    if |p| > 1 {
      LastPartNonEmpty(p[1..]);
    } else {
      SplitSepFree(p, '/');
    }
  }

  /** The key of a transcript does not depend on where its volume is mounted, so a cursor
      written under one mount point is read back under another. */
  lemma KeyIgnoresMount(root: string, project: string, file: string)
    requires '/' !in project && '/' !in file && file != ""
    ensures Key(root + "/" + project + "/" + file) == project + "/" + file
  {
    var path := root + "/" + project + "/" + file;
    var mid := root + "/" + project;
    assert path == mid + ['/'] + file && mid == root + ['/'] + project;
    assert path[|path| - 1] == file[|file| - 1] && file[|file| - 1] in file;
    assert StripRight(path, '/') == path;
    SplitAppend(mid, file, '/');
    SplitAppend(root, project, '/');
    SplitSepFree(project, '/');
    SplitSepFree(file, '/');
  }

  /** Two transcripts under one directory never share a key. */
  lemma KeysOfTranscriptsDiffer(root: string, p1: string, f1: string, p2: string, f2: string)
    requires '/' !in p1 && '/' !in f1 && f1 != ""
    requires '/' !in p2 && '/' !in f2 && f2 != ""
    requires Key(root + "/" + p1 + "/" + f1) == Key(root + "/" + p2 + "/" + f2)
    ensures p1 == p2 && f1 == f2
  {
    KeyIgnoresMount(root, p1, f1);
    KeyIgnoresMount(root, p2, f2);
    SplitAppend(p1, f1, '/');
    SplitAppend(p2, f2, '/');
    SplitSepFree(p1, '/');
    SplitSepFree(f1, '/');
    SplitSepFree(p2, '/');
    SplitSepFree(f2, '/');
    assert p1 + "/" + f1 == p1 + ['/'] + f1 && p2 + "/" + f2 == p2 + ['/'] + f2;
    assert Split(p1 + ['/'] + f1, '/') == [p1, f1];
    assert Split(p2 + ['/'] + f2, '/') == [p2, f2];
    assert [p1, f1][0] == p1 && [p2, f2][0] == p2 && [p1, f1][1] == f1 && [p2, f2][1] == f2;
  }
}
