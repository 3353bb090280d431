/**
 * Template expansion (`apply_template`): every `{id}` in the endpoint
 * template, and in the optional request-body template, becomes the identifier.
 */
module Template {
  import opened Wrappers

  const Placeholder: string := "{id}"

  /** `s` holds the placeholder starting at index `i`. */
  predicate PlaceholderAt(s: string, i: int)
  {
    0 <= i && i + |Placeholder| <= |s| && s[i..i + |Placeholder|] == Placeholder
  }

  predicate HasPlaceholder(s: string)
  {
    exists i :: 0 <= i < |s| && PlaceholderAt(s, i)
  }

  /**
   * `t.replace('{id}', id)`: a left-to-right scan that copies characters and
   * replaces each placeholder it meets by `id`.
   */
  function Expand(t: string, id: string): (r: string)
  {
    if t == [] then []
    else if Placeholder <= t then id + Expand(t[|Placeholder|..], id)
    else [t[0]] + Expand(t[1..], id)
  }

  /** A template without a placeholder is left unchanged. */
  lemma {:induction false} ExpandNoPlaceholder(t: string, id: string)
    requires !HasPlaceholder(t)
    ensures Expand(t, id) == t
  {
    if t != [] {
      assert !PlaceholderAt(t, 0);
      forall i | PlaceholderAt(t[1..], i) ensures PlaceholderAt(t, i + 1) {
        assert t[1..][i..i + |Placeholder|] == t[i + 1..i + 1 + |Placeholder|];
      }
      ExpandNoPlaceholder(t[1..], id);
      assert [t[0]] + t[1..] == t;
    }
  }

  /**
   * Every occurrence of the placeholder is replaced, wherever it sits: the
   * expansion of `a + "{id}" + b` is the expansion of `a`, then `id`, then the
   * expansion of `b`. (No proper suffix of `{id}` is also a prefix of it, so
   * the scan of `a` never swallows the placeholder that follows.)
   */
  lemma {:induction false} ExpandSplitsAtPlaceholder(a: string, b: string, id: string)
    ensures Expand(a + Placeholder + b, id) == Expand(a, id) + id + Expand(b, id)
  {
    var t := a + Placeholder + b;
    if a == [] {
      assert t == Placeholder + b;
      assert t[|Placeholder|..] == b;
    } else if Placeholder <= a {
      assert Placeholder <= t;
      assert t[|Placeholder|..] == a[|Placeholder|..] + Placeholder + b;
      ExpandSplitsAtPlaceholder(a[|Placeholder|..], b, id);
    } else {
      if |a| < |Placeholder| {
        assert t[3] == Placeholder[3 - |a|];
        assert t[3] != '}';
      } else {
        assert t[..|Placeholder|] == a[..|Placeholder|];
      }
      assert !(Placeholder <= t);
      assert t[1..] == a[1..] + Placeholder + b;
      ExpandSplitsAtPlaceholder(a[1..], b, id);
    }
  }

  /** Expansion replaces the placeholder found at any index `i`. */
  lemma ExpandAt(t: string, id: string, i: int)
    requires PlaceholderAt(t, i)
    ensures Expand(t, id) == Expand(t[..i], id) + id + Expand(t[i + |Placeholder|..], id)
  {
    assert t == t[..i] + Placeholder + t[i + |Placeholder|..];
    ExpandSplitsAtPlaceholder(t[..i], t[i + |Placeholder|..], id);
  }

  /**
   * Expansion up to the first placeholder: the text before it is copied and
   * the placeholder becomes `id`. With `ExpandNoPlaceholder` this determines
   * `Expand` on every template.
   */
  lemma ExpandFirstPlaceholder(a: string, b: string, id: string)
    requires !HasPlaceholder(a)
    ensures Expand(a + Placeholder + b, id) == a + id + Expand(b, id)
  {
    ExpandSplitsAtPlaceholder(a, b, id);
    ExpandNoPlaceholder(a, id);
  }

  /** A string without `{` holds no placeholder. */
  lemma NoBraceNoPlaceholder(s: string)
    requires '{' !in s
    ensures !HasPlaceholder(s)
  {
    forall i | 0 <= i < |s| ensures !PlaceholderAt(s, i) {
      if i + |Placeholder| <= |s| {
        assert s[i..i + |Placeholder|][0] == s[i];
      }
    }
  }

  /** The endpoint example: `/users/{id}` with `42` gives `/users/42`. */
  lemma ExpandUsersExample()
    ensures Expand("/users/{id}", "42") == "/users/42"
  {
    var prefix := "/users/";
    NoBraceNoPlaceholder(prefix);
    ExpandFirstPlaceholder(prefix, "", "42");
    assert prefix + Placeholder + "" == "/users/{id}";
    assert prefix + "42" + Expand("", "42") == "/users/42";
  }

  /**
   * `apply_template(url_template, id, data_template)`: the expanded URL and the
   * expanded body, where a body template that is absent or empty (falsy in
   * Python) gives no body at all.
   */
  function ApplyTemplate(urlTemplate: string, id: string, dataTemplate: Option<string>): (r: (string, Option<string>))
    ensures r.0 == Expand(urlTemplate, id)
    ensures r.1.None? <==> (dataTemplate.None? || dataTemplate.value == "")
    ensures r.1.Some? ==> r.1.value == Expand(dataTemplate.value, id)
  {
    var url := Expand(urlTemplate, id);
    var data := if dataTemplate.Some? && dataTemplate.value != "" then Some(Expand(dataTemplate.value, id)) else None;
    (url, data)
  }
}
