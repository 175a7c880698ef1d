/** Distinguished names: the two name parsers the synchronisation relies on. */
module LdapNames {
  import opened Types

  /** The text before the first comma. */
  function UpToComma(s: string): (r: string)
    ensures |r| <= |s| && r == s[..|r|]
    ensures ',' !in r
    ensures |r| < |s| ==> s[|r|] == ','
  {
    if s == "" || s[0] == ',' then "" else [s[0]] + UpToComma(s[1..])
  }

  /** `/^CN=([^,]+)/i`: the letters match in either case and the name is not empty. */
  predicate HasCnPrefix(dn: string): (b: bool)
    ensures b <==> |dn| >= 3 && dn[..3] in {"CN=", "Cn=", "cN=", "cn="}
  {
    && |dn| >= 3
    && (assert dn[..3] == [dn[0], dn[1], dn[2]]; dn[0] == 'C' || dn[0] == 'c')
    && (dn[1] == 'N' || dn[1] == 'n') && dn[2] == '='
  }

  function ExtractCn(dn: string): (cn: Option<string>)
    ensures cn.Some? <==> |dn| > 3 && dn[..3] in {"CN=", "Cn=", "cN=", "cn="} && dn[3] != ','
    ensures cn.Some? ==> cn.value != "" && ',' !in cn.value
    ensures cn.Some? ==> cn.value <= dn[3..] && (3 + |cn.value| < |dn| ==> dn[3 + |cn.value|] == ',')
  {
    if HasCnPrefix(dn) && UpToComma(dn[3..]) != "" then Some(UpToComma(dn[3..])) else None
  }

  /** `parseGroupDn`: the path of a group, or nothing for a DN without a group name, which is
      an error to its callers. */
  function GroupPath(dn: string): (path: Option<string>)
    ensures path.Some? <==> ExtractCn(dn).Some?
    ensures path.Some? ==> |path.value| > 1 && path.value[0] == '/' && ',' !in path.value
  {
    match ExtractCn(dn)
    case None => None
    case Some(cn) => Some("/" + cn)
  }

  lemma UpToCommaUnique(s: string, r: string)
    requires r <= s && ',' !in r && (|r| < |s| ==> s[|r|] == ',')
    ensures r == UpToComma(s)
  {
    if r != "" {
      assert s[0] == r[0] && r[0] in r;
      UpToCommaUnique(s[1..], r[1..]);
      assert r == [r[0]] + r[1..];
    }
  }

  /** Only the first component of a name decides its path: what follows the comma, and
      the case of the letters CN, are lost. */
  lemma SamePathIffSameFirstComponent(cn: string, parent: string, dn: string)
    requires cn != "" && ',' !in cn
    ensures GroupPath("CN=" + cn + "," + parent) == Some("/" + cn)
    ensures GroupPath(dn) == Some("/" + cn) <==>
      HasCnPrefix(dn) && (dn[3..] == cn || (cn + ",") <= dn[3..])
  {
    var full := "CN=" + cn + "," + parent;
    assert full[3..] == cn + "," + parent;
    UpToCommaUnique(full[3..], cn);
    if HasCnPrefix(dn) && (dn[3..] == cn || (cn + ",") <= dn[3..]) {
      if dn[3..] != cn {
        assert (cn + ",")[|cn|] == dn[3..][|cn|];
        assert cn == (cn + ",")[..|cn|] == dn[3..][..|cn|];
      }
      UpToCommaUnique(dn[3..], cn);
    }
    if GroupPath(dn) == Some("/" + cn) {
      var got := ExtractCn(dn).value;
      assert ("/" + got)[1..] == got && ("/" + cn)[1..] == cn;
      if 3 + |cn| < |dn| {
        assert dn[3..][..|cn| + 1] == cn + ",";
      }
    }
  }
}
