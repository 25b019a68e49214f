/** The order in which the JSON library lists the members of an object: by name, byte by byte. */
module ManifestOrder {
  // std::less<std::string>
  predicate Below(a: string, b: string) {
    b != [] && (a == [] || a[0] < b[0] || (a[0] == b[0] && Below(a[1..], b[1..])))
  }

  lemma {:induction false} BelowIsTotal(a: string, b: string)
    ensures Below(a, b) || Below(b, a) || a == b
  {
    if a != [] && b != [] && a[0] == b[0] {
      BelowIsTotal(a[1..], b[1..]);
      assert a == [a[0]] + a[1..] && b == [b[0]] + b[1..];
    }
  }

  lemma {:induction false} BelowIsStrict(a: string, b: string)
    requires Below(a, b)
    ensures !Below(b, a) && a != b
  {
    if a != [] && a[0] == b[0] {
      BelowIsStrict(a[1..], b[1..]);
    }
  }

  lemma {:induction false} BelowIsTransitive(a: string, b: string, c: string)
    requires Below(a, b) && Below(b, c)
    ensures Below(a, c)
  {
    if a != [] && a[0] == b[0] == c[0] {
      BelowIsTransitive(a[1..], b[1..], c[1..]);
    }
  }

  predicate IsFirst(texts: set<string>, t: string) { t in texts && forall u :: u in texts ==> u == t || Below(t, u) }

  predicate IsLast(texts: set<string>, t: string) { t in texts && forall u :: u in texts ==> u == t || Below(u, t) }

  lemma {:induction false} FirstExists(texts: set<string>) returns (t: string)
    requires texts != {}
    ensures t in texts && IsFirst(texts, t)
    decreases |texts|
  {
    hide Below;
    var u :| u in texts;
    if texts == {u} {
      t := u;
    } else {
      var rest := texts - {u};
      assert texts == rest + {u};
      var v := FirstExists(rest);
      BelowIsTotal(u, v);
      t := if Below(u, v) then u else v;
      forall x | x in texts
        ensures x == t || Below(t, x)
      {
        if x != u && x != v && Below(u, v) {
          BelowIsTransitive(u, v, x);
        }
      }
    }
  }

  lemma {:induction false} LastExists(texts: set<string>) returns (t: string)
    requires texts != {}
    ensures IsLast(texts, t)
    decreases |texts|
  {
    hide Below;
    var u :| u in texts;
    if texts == {u} {
      t := u;
    } else {
      var rest := texts - {u};
      assert texts == rest + {u};
      var v := LastExists(rest);
      BelowIsTotal(u, v);
      t := if Below(v, u) then u else v;
      forall x | x in texts
        ensures x == t || Below(x, t)
      {
        if x != u && x != v && Below(v, u) {
          BelowIsTransitive(x, v, u);
        }
      }
    }
  }

  lemma LastIsUnique(texts: set<string>)
    ensures forall s, t :: IsLast(texts, s) && IsLast(texts, t) ==> s == t
  {
    hide Below;
    forall s, t | IsLast(texts, s) && IsLast(texts, t)
      ensures s == t
    {
      if s != t {
        BelowIsStrict(s, t);
      }
    }
  }

  lemma OneLast(texts: set<string>)
    requires texts != {}
    ensures exists t :: IsLast(texts, t)
    ensures forall s, t :: IsLast(texts, s) && IsLast(texts, t) ==> s == t
  {
    var t := LastExists(texts);
    LastIsUnique(texts);
  }

  function LastOf(texts: set<string>): (t: string)
    requires texts != {}
    ensures IsLast(texts, t)
  {
    OneLast(texts);
    var t :| t in texts && IsLast(texts, t);
    t
  }

  lemma LastIs(texts: set<string>, t: string)
    requires IsLast(texts, t)
    ensures LastOf(texts) == t
  {
    LastIsUnique(texts);
  }
}
