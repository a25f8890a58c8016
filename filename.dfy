/**
 * The PDF file name chosen in main: the selected invoice ID with the characters
 * < > : " / \ | ? * deleted (re.sub over a character class), every space replaced by
 * '_', wrapped as invoice_<id>.pdf.
 */
module Filename {

  /** The characters of the class [<>:"/\\|?*]. */
  predicate Forbidden(c: char)
  {
    c == '<' || c == '>' || c == ':' || c == '"' || c == '/' || c == '\\' || c == '|' || c == '?' || c == '*'
  }

  /** re.sub(r'[<>:"/\\|?*]', '', s). */
  function RemoveForbidden(s: string): (r: string)
    ensures |r| <= |s|
    ensures forall k :: 0 <= k < |r| ==> !Forbidden(r[k])
  {
    if s == [] then []
    else if Forbidden(s[0]) then RemoveForbidden(s[1..])
    else [s[0]] + RemoveForbidden(s[1..])
  }

  /** s.replace(' ', '_'). */
  function SpacesToUnderscores(s: string): (r: string)
    ensures |r| == |s|
    ensures forall k :: 0 <= k < |s| ==> r[k] == if s[k] == ' ' then '_' else s[k]
  {
    seq(|s|, k requires 0 <= k < |s| => if s[k] == ' ' then '_' else s[k])
  }

  /**
   * replace(' ', '_') leaves no space; '_' now counts the old spaces and underscores,
   * and every other character keeps its count.
   */
  lemma {:induction false} SpacesToUnderscoresCounts(s: string, c: char)
    ensures ' ' !in SpacesToUnderscores(s)
    ensures multiset(SpacesToUnderscores(s))[c]
         == if c == ' ' then 0
            else if c == '_' then multiset(s)['_'] + multiset(s)[' ']
            else multiset(s)[c]
  {
    var r := SpacesToUnderscores(s);
    if s != [] {
      SpacesToUnderscoresCounts(s[1..], c);
      assert r == [r[0]] + SpacesToUnderscores(s[1..]);
      assert s == [s[0]] + s[1..];
    }
  }

  const Prefix := "invoice_"
  const Suffix := ".pdf"

  /** The output file name for an invoice ID. */
  function SafeFilename(id: string): string
  {
    Prefix + SpacesToUnderscores(RemoveForbidden(id)) + Suffix
  }

  /** Removal works character by character: it distributes over concatenation. */
  lemma {:induction false} RemoveForbiddenAppend(a: string, b: string)
    ensures RemoveForbidden(a + b) == RemoveForbidden(a) + RemoveForbidden(b)
    decreases |a|
  {
    if a != [] {
      assert (a + b)[0] == a[0];
      assert (a + b)[1..] == a[1..] + b;
      RemoveForbiddenAppend(a[1..], b);
    } else {
      assert a + b == b;
    }
  }

  /**
   * Every character that is not forbidden is kept as often as it occurs, and in order
   * (with RemoveForbiddenAppend); every forbidden one is gone.
   */
  lemma {:induction false} RemoveForbiddenCounts(s: string, c: char)
    ensures multiset(RemoveForbidden(s))[c] == if Forbidden(c) then 0 else multiset(s)[c]
  {
    if s != [] {
      RemoveForbiddenCounts(s[1..], c);
      assert s == [s[0]] + s[1..];
    }
  }

  /** A name without forbidden characters is left as it is, so removal is idempotent. */
  lemma {:induction false} RemoveForbiddenKeepsClean(s: string)
    requires forall k :: 0 <= k < |s| ==> !Forbidden(s[k])
    ensures RemoveForbidden(s) == s
  {
    if s != [] {
      RemoveForbiddenKeepsClean(s[1..]);
    }
  }

  /**
   * The file name is invoice_<name>.pdf, where <name> holds no forbidden character and no
   * space, and has one character for each character of the ID that is not forbidden.
   */
  lemma SafeFilenameShape(id: string)
    ensures SafeFilename(id)[..|Prefix|] == Prefix
    ensures SafeFilename(id)[|SafeFilename(id)| - |Suffix|..] == Suffix
    ensures |SafeFilename(id)| == |Prefix| + |RemoveForbidden(id)| + |Suffix|
    ensures forall k :: |Prefix| <= k < |SafeFilename(id)| - |Suffix|
              ==> !Forbidden(SafeFilename(id)[k]) && SafeFilename(id)[k] != ' '
  {
    var name := SpacesToUnderscores(RemoveForbidden(id));
    assert SafeFilename(id) == Prefix + name + Suffix;
    forall k | |Prefix| <= k < |SafeFilename(id)| - |Suffix|
      ensures !Forbidden(SafeFilename(id)[k]) && SafeFilename(id)[k] != ' '
    {
      assert SafeFilename(id)[k] == name[k - |Prefix|];
    }
  }

  /** The whole file name holds no forbidden character and no space. */
  lemma SafeFilenameClean(id: string)
    ensures forall k :: 0 <= k < |SafeFilename(id)| ==> !Forbidden(SafeFilename(id)[k]) && SafeFilename(id)[k] != ' '
  {
    SafeFilenameShape(id);
    var f := SafeFilename(id);
    forall k | 0 <= k < |f|
      ensures !Forbidden(f[k]) && f[k] != ' '
    {
      if k < |Prefix| {
        assert f[k] == Prefix[k];
      } else if k >= |f| - |Suffix| {
        assert f[k] == Suffix[k - (|f| - |Suffix|)];
      }
    }
  }

  /** A forbidden character anywhere in the ID does not change the file name. */
  lemma ForbiddenCharVanishes(a: string, c: char, b: string)
    requires Forbidden(c)
    ensures SafeFilename(a + [c] + b) == SafeFilename(a + b)
  {
    RemoveForbiddenAppend(a + [c], b);
    RemoveForbiddenAppend(a, [c]);
    RemoveForbiddenAppend(a, b);
  }

  /** IDs that differ only in a space against an underscore get the same file name. */
  lemma SpaceMeetsUnderscore(a: string, b: string)
    ensures SafeFilename(a + " " + b) == SafeFilename(a + "_" + b)
  {
    var ra, rb := RemoveForbidden(a), RemoveForbidden(b);
    assert RemoveForbidden(a + " " + b) == ra + " " + rb by {
      RemoveForbiddenAppend(a + " ", b);
      RemoveForbiddenAppend(a, " ");
    }
    assert RemoveForbidden(a + "_" + b) == ra + "_" + rb by {
      RemoveForbiddenAppend(a + "_", b);
      RemoveForbiddenAppend(a, "_");
    }
    var n1, n2 := ra + " " + rb, ra + "_" + rb;
    forall k | 0 <= k < |n1|
      ensures SpacesToUnderscores(n1)[k] == SpacesToUnderscores(n2)[k]
    {
      if k != |ra| {
        assert n1[k] == n2[k];
      }
    }
    assert SpacesToUnderscores(n1) == SpacesToUnderscores(n2);
  }
}
