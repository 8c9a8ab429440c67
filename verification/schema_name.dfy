/**
 * mapBundleToSchemaName: `str_replace('_', '', ucwords($bundleName, '_'))`,
 * on ASCII text.
 */
module SchemaName {

  /** The C library's `toupper` on ASCII: lower-case letters up, everything else unchanged. */
  function ToUpper(c: char): char {
    if 'a' <= c <= 'z' then (c as int - 32) as char else c
  }

  /** How many times `c` occurs in `s`. */
  function Count(s: string, c: char): nat {
    if s == [] then 0 else (if s[0] == c then 1 else 0) + Count(s[1..], c)
  }

  /**
   * `ucwords` with `_` as the only delimiter, from a position where
   * `capitalize` says whether the previous character was a delimiter (or
   * there was none).
   */
  function UcWordsFrom(s: string, capitalize: bool): (r: string)
    ensures |r| == |s|
    ensures forall i :: 0 <= i < |s| ==>
      r[i] == if (i == 0 && capitalize) || (i > 0 && s[i - 1] == '_') then ToUpper(s[i]) else s[i]
  {
    if s == [] then []
    else [if capitalize then ToUpper(s[0]) else s[0]] + UcWordsFrom(s[1..], s[0] == '_')
  }

  /** `ucwords($s, '_')`: the first character and every character after `_` upper-cased. */
  function UcWords(s: string): string {
    UcWordsFrom(s, true)
  }

  /** `str_replace($c, '', $s)` for a single character `c`. */
  function RemoveAll(s: string, c: char): (r: string)
    ensures c !in r
    ensures |r| == |s| - Count(s, c)
  {
    if s == [] then []
    else if s[0] == c then RemoveAll(s[1..], c)
    else [s[0]] + RemoveAll(s[1..], c)
  }

  /** Removing `c` from one character drops it when it is `c` and keeps it otherwise. */
  lemma RemoveAllSingle(x: char, c: char)
    ensures RemoveAll([x], c) == if x == c then [] else [x]
  {
    assert [x][1..] == [];
  }

  /** Removing `c` works piece by piece: every other character is kept, in order. */
  lemma {:induction false} RemoveAllAppend(a: string, b: string, c: char)
    ensures RemoveAll(a + b, c) == RemoveAll(a, c) + RemoveAll(b, c)
  {
    if a != [] {
      assert (a + b)[0] == a[0];
      assert (a + b)[1..] == a[1..] + b;
      RemoveAllAppend(a[1..], b, c);
    } else {
      assert a + b == b;
    }
  }

  /**
   * `mapBundleToSchemaName`: `ucwords` with `_` as delimiter, then every `_`
   * removed. The result is the one-pass reading of the bundle name.
   */
  function MapBundleToSchemaName(bundleName: string): (r: string)
    ensures r == CamelCase(bundleName, true)
  {
    RemoveUcWordsIsCamelCase(bundleName, true);
    RemoveAll(UcWords(bundleName), '_')
  }

  /**
   * The conversion read as one pass: drop each `_`, and upper-case a
   * character when it starts the name or follows a `_`.
   */
  function CamelCase(s: string, capitalize: bool): string {
    if s == [] then []
    else if s[0] == '_' then CamelCase(s[1..], true)
    else [if capitalize then ToUpper(s[0]) else s[0]] + CamelCase(s[1..], false)
  }

  lemma {:induction false} UcWordsFromKeepsUnderscores(s: string, capitalize: bool)
    ensures Count(UcWordsFrom(s, capitalize), '_') == Count(s, '_')
  {
    if s != [] {
      var r := UcWordsFrom(s, capitalize);
      assert r[1..] == UcWordsFrom(s[1..], s[0] == '_');
      UcWordsFromKeepsUnderscores(s[1..], s[0] == '_');
    }
  }

  lemma {:induction false} RemoveUcWordsIsCamelCase(s: string, capitalize: bool)
    ensures RemoveAll(UcWordsFrom(s, capitalize), '_') == CamelCase(s, capitalize)
  {
    if s != [] {
      var r := UcWordsFrom(s, capitalize);
      assert r[1..] == UcWordsFrom(s[1..], s[0] == '_');
      RemoveUcWordsIsCamelCase(s[1..], s[0] == '_');
    }
  }

  /**
   * The schema name has no `_`, is shorter than the bundle name by the
   * number of `_` in it, and is what the one-pass reading gives.
   */
  lemma SchemaNameShape(bundleName: string)
    ensures '_' !in MapBundleToSchemaName(bundleName)
    ensures |MapBundleToSchemaName(bundleName)| == |bundleName| - Count(bundleName, '_')
    ensures MapBundleToSchemaName(bundleName) == CamelCase(bundleName, true)
    ensures bundleName == "" ==> MapBundleToSchemaName(bundleName) == ""
  {
    UcWordsFromKeepsUnderscores(bundleName, true);
    RemoveUcWordsIsCamelCase(bundleName, true);
  }

  /** A name without `_` only has its first character upper-cased; nothing is lower-cased. */
  lemma SchemaNameWithoutUnderscore(bundleName: string)
    requires bundleName != [] && '_' !in bundleName
    ensures MapBundleToSchemaName(bundleName) == [ToUpper(bundleName[0])] + bundleName[1..]
  {
    RemoveUcWordsIsCamelCase(bundleName, true);
    CamelCaseWithoutUnderscore(bundleName[1..]);
  }

  lemma {:induction false} CamelCaseWithoutUnderscore(s: string)
    requires '_' !in s
    ensures CamelCase(s, false) == s
  {
    if s != [] {
      assert s[0] in s;
      assert forall c :: c in s[1..] ==> c in s;
      CamelCaseWithoutUnderscore(s[1..]);
    }
  }

  /** The first character of a non-empty one-pass result is already upper-cased. */
  lemma {:induction false} CamelCaseStartsUpper(s: string)
    requires CamelCase(s, true) != []
    ensures CamelCase(s, true)[0] == ToUpper(CamelCase(s, true)[0])
  {
    if s[0] == '_' {
      CamelCaseStartsUpper(s[1..]);
    }
  }

  /** Converting a schema name again leaves it as it is. */
  lemma SchemaNameIdempotent(bundleName: string)
    ensures MapBundleToSchemaName(MapBundleToSchemaName(bundleName)) == MapBundleToSchemaName(bundleName)
  {
    var name := MapBundleToSchemaName(bundleName);
    SchemaNameShape(bundleName);
    if name != [] {
      CamelCaseStartsUpper(bundleName);
      SchemaNameWithoutUnderscore(name);
      assert name == [name[0]] + name[1..];
    }
  }

  lemma {:induction false} CamelCaseJoin(a: string, b: string, capitalize: bool)
    ensures CamelCase(a + "_" + b, capitalize) == CamelCase(a, capitalize) + CamelCase(b, true)
  {
    if a == [] {
      assert a + "_" + b == "_" + b;
      assert ("_" + b)[1..] == b;
    } else {
      assert (a + "_" + b)[0] == a[0];
      assert (a + "_" + b)[1..] == a[1..] + "_" + b;
      CamelCaseJoin(a[1..], b, a[0] == '_');
    }
  }

  /** Joining two bundle-name words with `_` joins their schema names. */
  lemma SchemaNameJoin(a: string, b: string)
    ensures MapBundleToSchemaName(a + "_" + b) == MapBundleToSchemaName(a) + MapBundleToSchemaName(b)
  {
    SchemaNameShape(a + "_" + b);
    SchemaNameShape(a);
    SchemaNameShape(b);
    CamelCaseJoin(a, b, true);
  }

  /**
   * Two `_`-joined words: each gets its first character upper-cased and keeps
   * the rest as it is (`image_Gallery` gives `ImageGallery`).
   */
  lemma SchemaNameTwoWords(a: string, b: string)
    requires a != [] && b != [] && '_' !in a && '_' !in b
    ensures MapBundleToSchemaName(a + "_" + b) == [ToUpper(a[0])] + a[1..] + [ToUpper(b[0])] + b[1..]
  {
    SchemaNameJoin(a, b);
    SchemaNameWithoutUnderscore(a);
    SchemaNameWithoutUnderscore(b);
  }
}
