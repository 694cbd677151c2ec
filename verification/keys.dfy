/** Upload keys: the path of a local entry relative to the synchronised
    folder, the key of its parent folder, and the remote relative path with
    Windows separators turned into URL slashes. The platform separator is a
    parameter (`path.sep`). */
module Keys {
  import opened Wrappers
  import opened Text

  /** `path` lies strictly inside the folder `root`. */
  predicate Under(path: string, root: string, sep: char)
  {
    |root| < |path| && path[..|root|] == root && path[|root|] == sep
  }

  /** `getUploadKey`: the entry's path relative to the root folder. Only the
      plain prefix case of `path.relative` is modelled. */
  function UploadKey(path: string, root: string, sep: char): (key: string)
    requires Under(path, root, sep)
    ensures root + [sep] + key == path
  {
    path[|root| + 1..]
  }

  /** Distinct entries under one root have distinct keys. */
  lemma UploadKeyInjective(p: string, q: string, root: string, sep: char)
    requires Under(p, root, sep) && Under(q, root, sep)
    requires UploadKey(p, root, sep) == UploadKey(q, root, sep)
    ensures p == q
  {
  }

  /** `getParentUploadKey`: the key with its last separator-delimited
      segment removed, or `None` (the source's `false`) for a key of one
      segment. */
  function ParentKey(key: string, sep: char): (parent: Option<string>)
    // a key without a separator is a root-level entry and has no parent
    ensures parent.None? <==> sep !in key
  {
    var parts := Split(key, sep);
    SplitIsSingleIff(key, sep);
    if |parts| > 1 then Some(Join(parts[..|parts| - 1], sep)) else None
  }

  /** A key with a separator splits into two or more segments, and its
      parent is the join of all but the last. */
  lemma ParentKeyJoinsInit(key: string, sep: char)
    requires sep in key
    ensures |Split(key, sep)| >= 2
    ensures var parts := Split(key, sep);
      ParentKey(key, sep) == Some(Join(parts[..|parts| - 1], sep))
  {
    SplitIsSingleIff(key, sep);
  }

  /** A key of two or more segments has as parent the key of its first
      segments: one segment fewer, and the parent, the separator and the last
      segment put back together give the key. The parent is strictly
      shorter, so parent links cannot form a cycle. */
  lemma ParentKeyOfNested(key: string, sep: char)
    requires sep in key
    ensures ParentKey(key, sep).Some?
    ensures var parent := ParentKey(key, sep).value;
      var parts := Split(key, sep);
      && Split(parent, sep) == parts[..|parts| - 1]
      && parent + [sep] + parts[|parts| - 1] == key
      && |parent| < |key|
  {
    var parts := Split(key, sep);
    ParentKeyJoinsInit(key, sep);
    var parent, last := Join(parts[..|parts| - 1], sep), parts[|parts| - 1];
    JoinOfSplit(key, sep);
    JoinWithoutLast(parts, sep);
    assert parent + [sep] + last == key;
    assert |key| == |parent| + 1 + |last|;
  }

  /** The slash-normalised remote relative path: every backslash becomes
      '/', every other character is kept. */
  function NormaliseSlashes(s: string): (r: string)
    ensures |r| == |s|
    ensures '\\' !in r
    ensures forall i :: 0 <= i < |s| && s[i] != '\\' ==> r[i] == s[i]
    ensures forall i :: 0 <= i < |s| && s[i] == '\\' ==> r[i] == '/'
  {
    seq(|s|, i requires 0 <= i < |s| => if s[i] == '\\' then '/' else s[i])
  }

  /** Normalising twice changes nothing more. */
  lemma NormaliseSlashesIdempotent(s: string)
    ensures NormaliseSlashes(NormaliseSlashes(s)) == NormaliseSlashes(s)
  {
  }

  /** With the Windows separator, and no '/' inside the key, the remote
      path has exactly the key's segments, now separated by '/'. */
  lemma RemotePathSegments(key: string)
    requires '/' !in key
    ensures Split(NormaliseSlashes(key), '/') == Split(key, '\\')
  {
    var parts := Split(key, '\\');
    JoinOfSplit(key, '\\');
    forall i | 0 <= i < |parts|
      ensures '/' !in parts[i]
    {
      SegmentsOfSeparatorFree(key, '\\', '/', i);
    }
    NormaliseJoin(parts);
    SplitOfJoin(parts, '/');
  }

  /** A character absent from `s` is absent from each of its parts. */
  lemma SegmentsOfSeparatorFree(s: string, c: char, x: char, i: nat)
    requires x !in s && i < |Split(s, c)|
    ensures x !in Split(s, c)[i]
  {
    var parts := Split(s, c);
    JoinOfSplit(s, c);
    JoinContainsParts(parts, c, i);
  }

  /** Each part is a contiguous piece of the join. */
  lemma {:induction false} JoinContainsParts(parts: seq<string>, c: char, i: nat)
    requires i < |parts|
    ensures forall ch :: ch in parts[i] ==> ch in Join(parts, c)
    decreases |parts|
  {
    if |parts| > 1 && i > 0 {
      JoinContainsParts(parts[1..], c, i - 1);
    }
  }

  /** Normalising a backslash join of slash- and backslash-free parts
      joins them with '/'. */
  lemma {:induction false} NormaliseJoin(parts: seq<string>)
    requires forall i :: 0 <= i < |parts| ==> '\\' !in parts[i] && '/' !in parts[i]
    ensures NormaliseSlashes(Join(parts, '\\')) == Join(parts, '/')
    decreases |parts|
  {
    if |parts| == 1 {
      NormaliseFree(parts[0]);
    } else if |parts| > 1 {
      NormaliseJoin(parts[1..]);
      NormaliseFree(parts[0]);
      NormaliseAppend(parts[0] + ['\\'], Join(parts[1..], '\\'));
      NormaliseAppend(parts[0], ['\\']);
    }
  }

  lemma NormaliseFree(s: string)
    requires '\\' !in s
    ensures NormaliseSlashes(s) == s
  {
  }

  lemma NormaliseAppend(a: string, b: string)
    ensures NormaliseSlashes(a + b) == NormaliseSlashes(a) + NormaliseSlashes(b)
  {
  }
}
