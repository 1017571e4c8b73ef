/** The cases of handlers/sql_processor_test.go, each stated for every
    template of the same shape rather than for the one string the test
    uses. The test's own strings are an instance; the doc comment of each
    lemma names the fragments that give it. A Go map with one entry is a
    one-element parameter list. */
module SqlExamples {
  import opened Strings
  import opened SqlProcessor

  // ---------------------------------------------------------------------
  // Facts about the fragments the tests are built from

  lemma KeysOfOne(k: string, v: Value)
    ensures Keys([Param(k, v)]) == {k}
  {
    var ps := [Param(k, v)];
    assert ps[0].key == k;
  }

  lemma TrimmedKept(x: string)
    requires Trimmed(x)
    ensures TrimSpace(x) == x
  {
    TrimSpaceMargins([], x, []);
    assert [] + x + [] == x;
  }

  lemma SpacedTrimmed(w1: string, x: string, w2: string)
    requires AllSpace(w1) && AllSpace(w2) && Trimmed(x)
    ensures TrimSpace(w1 + x + w2) == x
  {
    TrimSpaceMargins(w1, x, w2);
  }

  /** A text free of the letter e holds no `else`, not even when `els`
      follows it. */
  lemma NoElseIn(m: string)
    requires 'e' !in m
    ensures !Contains(m + "els", "else")
  {
    forall i | 0 <= i < |m| ensures m[i] != 'e' {
      assert m[i] in m;
    }
    FirstCharAbsent(m, "else");
    assert "else"[..3] == "els";
  }

  /** A fragment with a single placeholder names just that one. */
  lemma OneName(a: string, n: string, b: string)
    requires ':' !in a && ':' !in b && IsName(n)
    requires b == [] || !IsNameChar(b[0])
    ensures PlaceholderNames(a + ":" + n + b) == [n]
  {
    assert a + ":" + n + b == a + (":" + n + b);
    PlaceholderNamesSkip(a, ":" + n + b);
    PlaceholderNamesFront(n, b);
    PlaceholderNamesSkip(b, []);
    assert b + [] == b;
  }

  /** A name holds no `{`, `}`, newline or colon. */
  lemma NameChars(n: string)
    requires IsName(n)
    ensures '{' !in n && '}' !in n && '\n' !in n && ':' !in n
  {
    forall i | 0 <= i < |n| ensures n[i] != '{' && n[i] != '}' && n[i] != '\n' && n[i] != ':' {
      assert IsNameChar(n[i]);
    }
  }

  /** What a condition `pre:n` must satisfy in the lemmas below: one
      placeholder at its end, no `else` inside, no white space in front. */
  predicate Condition(pre: string, n: string) {
    IsName(n) && ':' !in pre && 'e' !in pre && 'e' !in n
    && '}' !in pre && '\n' !in pre && (pre == [] || !IsSpace(pre[0]))
  }

  /** A condition is trimmed and does not end in a comment marker. */
  lemma ConditionTrimmed(pre: string, n: string)
    requires IsName(n) && (pre == [] || !IsSpace(pre[0]))
    ensures Trimmed(pre + ":" + n)
    ensures !HasSuffix(pre + ":" + n, "*/")
  {
    var s := pre + ":" + n;
    assert s[|s| - 1] == n[|n| - 1];
    assert IsNameChar(n[|n| - 1]);
    assert pre == [] ==> s[0] == ':';
    assert pre != [] ==> s[0] == pre[0];
    assert s[|s| - 2..][1] == s[|s| - 1];
  }

  /** A condition holds no letter e. */
  lemma ConditionNoE(pre: string, n: string)
    requires Condition(pre, n)
    ensures 'e' !in pre + ":" + n
  {
    var s := pre + ":" + n;
    forall i | 0 <= i < |s| ensures s[i] != 'e' {
      if i < |pre| {
        assert s[i] == pre[i] && pre[i] in pre;
      } else if i > |pre| {
        assert s[i] == n[i - |pre| - 1] && n[i - |pre| - 1] in n;
      }
    }
  }

  /** A condition followed by a space holds no `else`. */
  lemma ConditionNoElse(pre: string, n: string)
    requires Condition(pre, n)
    ensures !Contains(pre + ":" + n + " " + "els", "else")
  {
    ConditionNoE(pre, n);
    NoElseIn(pre + ":" + n + " ");
  }

  /** A condition followed by a space trims to the condition. */
  lemma ConditionSpaced(pre: string, n: string)
    requires Condition(pre, n)
    ensures TrimSpace(pre + ":" + n + " ") == pre + ":" + n
  {
    ConditionTrimmed(pre, n);
    SpacedTrimmed([], pre + ":" + n, " ");
    assert [] + (pre + ":" + n) + " " == pre + ":" + n + " ";
  }

  /** The placeholders of a condition are all parameters exactly when its
      one name is. */
  lemma ConditionPresent(pre: string, n: string, ps: Params)
    requires Condition(pre, n)
    ensures AllPresent(PlaceholderNames(pre + ":" + n), ps) <==> n in Keys(ps)
  {
    OneName(pre, n, []);
    assert pre + ":" + n + [] == pre + ":" + n;
    assert [n][0] == n;
  }

  /** A condition is its own cleaned form. */
  lemma ConditionClean(pre: string, n: string)
    requires Condition(pre, n)
    ensures TrimSpace(Uncomment(pre + ":" + n)) == pre + ":" + n
  {
    ConditionTrimmed(pre, n);
    UncommentUnwrapped(pre + ":" + n);
    TrimmedKept(pre + ":" + n);
  }

  /** The else-fragment ` 'x'` holds no letter e when `x` holds none. */
  lemma QuotedNoE(x: string)
    requires 'e' !in x
    ensures 'e' !in " '" + x + "'"
  {
    var f := " '" + x + "'";
    forall i | 0 <= i < |f| ensures f[i] != 'e' {
      if 1 < i < |f| - 1 {
        assert f[i] == x[i - 2] && x[i - 2] in x;
      }
    }
  }

  /** The else-fragment ` 'x'` trims to `'x'`. */
  lemma QuotedTrimmed(x: string)
    ensures TrimSpace(" '" + x + "'") == ['\''] + x + ['\'']
  {
    var quoted := ['\''] + x + ['\''];
    assert Trimmed(quoted);
    SpacedTrimmed(" ", quoted, []);
    assert " " + quoted + [] == " '" + x + "'";
  }

  /** The else-fragment ` 'x'`, for `x` free of the letter e, yields `x`. */
  lemma QuotedAlternative(x: string)
    requires 'e' !in x
    ensures StripQuotes(TrimSpace(Split(" '" + x + "'", "else")[0])) == x
  {
    QuotedNoE(x);
    AbsentFirstChar(" '" + x + "'", "else");
    SplitAbsent(" '" + x + "'", "else");
    QuotedTrimmed(x);
    StripQuotesOfQuoted('\'', x);
  }

  /** The comment `/* pre:n */` of a condition, followed by a space,
      holds no `else`. */
  lemma CommentNoElse(pre: string, n: string)
    requires Condition(pre, n)
    ensures !Contains("/* " + pre + ":" + n + " */" + " " + "els", "else")
  {
    var core := pre + ":" + n;
    var m := "/* " + pre + ":" + n + " */" + " ";
    ConditionNoE(pre, n);
    assert 'e' !in m by {
      forall i | 0 <= i < |m| ensures m[i] != 'e' {
        if 3 <= i < 3 + |core| {
          assert m[i] == core[i - 3] && core[i - 3] in core;
        }
      }
    }
    NoElseIn(m);
  }

  /** The comment of a condition, followed by a space, trims to the
      comment. */
  lemma CommentSpaced(pre: string, n: string)
    ensures TrimSpace("/* " + pre + ":" + n + " */" + " ") == "/* " + pre + ":" + n + " */"
  {
    var c := "/* " + pre + ":" + n + " */";
    assert Trimmed(c) by {
      assert c[0] == '/' && c[|c| - 1] == '/';
    }
    SpacedTrimmed([], c, " ");
    assert [] + c + " " == c + " ";
  }

  /** The comment of a condition names exactly its placeholder. */
  lemma CommentNames(pre: string, n: string, ps: Params)
    requires Condition(pre, n) && n in Keys(ps)
    ensures AllPresent(PlaceholderNames("/* " + pre + ":" + n + " */"), ps)
  {
    OneName("/* " + pre, n, " */");
    assert [n][0] == n;
  }

  /** The comment `/* pre:n */` of a condition cleans to the condition. */
  lemma CommentClean(pre: string, n: string)
    requires Condition(pre, n)
    ensures TrimSpace(Uncomment("/* " + pre + ":" + n + " */")) == pre + ":" + n
  {
    var core := pre + ":" + n;
    var x := " " + core + " ";
    assert "/* " + pre + ":" + n + " */" == "/*" + x + "*/";
    UncommentWrapped(x);
    assert TrimSpace(x) == core by {
      ConditionTrimmed(pre, n);
      SpacedTrimmed(" ", core, " ");
    }
  }

  // The bodies of the tests' blocks, regrouped around their `else`.

  lemma AroundElse(m: string, f: string)
    ensures m + " else " + f == m + " " + "else" + (" " + f)
  {
  }

  lemma AroundQuotedElse(m: string, x: string)
    ensures m + " else '" + x + "'" == m + " " + "else" + (" '" + x + "'")
  {
  }

  lemma AroundCommentElse(a: string, f: string)
    ensures a + " */ else " + f == a + " */" + " " + "else" + (" " + f)
  {
  }

  // ---------------------------------------------------------------------
  // Block values

  /** A block `m else f` whose trimmed main fragment `main` names only
      parameters resolves to the cleaned form `r` of `main`. */
  lemma KeptFromFacts(m: string, f: string, ps: Params, main: string, r: string)
    requires !Contains(m + "els", "else")
    requires TrimSpace(m) == main && AllPresent(PlaceholderNames(main), ps)
    requires TrimSpace(Uncomment(main)) == r
    ensures BlockValue(m + "else" + f, ps) == r
  {
    BlockWithElse(m, f, ps);
  }

  /** A block `m else f` whose trimmed main fragment `main` names a missing
      parameter resolves to the unquoted else-fragment `x`. */
  lemma ElseFromFacts(m: string, f: string, ps: Params, main: string, x: string)
    requires !Contains(m + "els", "else")
    requires TrimSpace(m) == main && !AllPresent(PlaceholderNames(main), ps)
    requires StripQuotes(TrimSpace(Split(f, "else")[0])) == x
    ensures BlockValue(m + "else" + f, ps) == x
  {
    BlockWithElse(m, f, ps);
  }

  /** `pre:n else alt` with `n` a parameter resolves to the condition. */
  lemma ConditionKept(pre: string, n: string, alt: string, ps: Params)
    requires Condition(pre, n) && n in Keys(ps)
    ensures BlockValue(pre + ":" + n + " else " + alt, ps) == pre + ":" + n
  {
    var main := pre + ":" + n;
    AroundElse(main, alt);
    ConditionNoElse(pre, n);
    ConditionSpaced(pre, n);
    ConditionPresent(pre, n, ps);
    ConditionClean(pre, n);
    KeptFromFacts(main + " ", " " + alt, ps, main, main);
  }

  /** `pre:n else 'x'` with `n` not a parameter resolves to `x`. */
  lemma ConditionElse(pre: string, n: string, x: string, ps: Params)
    requires Condition(pre, n) && n !in Keys(ps) && 'e' !in x
    ensures BlockValue(pre + ":" + n + " else '" + x + "'", ps) == x
  {
    var main := pre + ":" + n;
    AroundQuotedElse(main, x);
    ConditionNoElse(pre, n);
    ConditionSpaced(pre, n);
    ConditionPresent(pre, n, ps);
    QuotedAlternative(x);
    ElseFromFacts(main + " ", " '" + x + "'", ps, main, x);
  }

  /** `pre:n` without `else` and with `n` not a parameter resolves to
      nothing. */
  lemma ConditionDropped(pre: string, n: string, ps: Params)
    requires Condition(pre, n) && n !in Keys(ps)
    ensures BlockValue(pre + ":" + n, ps) == ""
  {
    var main := pre + ":" + n;
    ConditionNoE(pre, n);
    AbsentFirstChar(main, "else");
    ConditionTrimmed(pre, n);
    TrimmedKept(main);
    ConditionPresent(pre, n, ps);
    BlockWithoutElse(main, ps);
  }

  /** A commented condition `pre:n` with `n` a parameter resolves to the
      condition without the comment markers. */
  lemma CommentedConditionKept(pre: string, n: string, alt: string, ps: Params)
    requires Condition(pre, n) && n in Keys(ps)
    ensures BlockValue("/* " + pre + ":" + n + " */ else " + alt, ps) == pre + ":" + n
  {
    var c := "/* " + pre + ":" + n + " */";
    AroundCommentElse("/* " + pre + ":" + n, alt);
    CommentNoElse(pre, n);
    CommentSpaced(pre, n);
    CommentNames(pre, n, ps);
    CommentClean(pre, n);
    KeptFromFacts(c + " ", " " + alt, ps, c, pre + ":" + n);
  }

  // ---------------------------------------------------------------------
  // Whole templates

  // Templates regrouped into text and what follows it.

  lemma OneBlockRegroup(t: string, body: string)
    ensures t + "{{" + body + "}}" == t + ("{{" + body + "}}" + [])
  {
  }

  lemma TwoBlocksRegroup(t1: string, body1: string, t2: string, body2: string)
    ensures t1 + "{{" + body1 + "}}" + t2 + "{{" + body2 + "}}"
            == t1 + ("{{" + body1 + "}}" + (t2 + "{{" + body2 + "}}"))
  {
  }

  /** Pass 1 on text followed by one block and nothing else. */
  lemma OneBlock(t: string, body: string, ps: Params, r: string)
    requires '{' !in t && '}' !in body && '\n' !in body
    requires BlockValue(body, ps) == r
    ensures ResolveBlocks(t + "{{" + body + "}}", ps) == t + r
  {
    OneBlockRegroup(t, body);
    PlainTextKept(t, "{{" + body + "}}" + [], Callback(ps));
    BlockReplaced(body, [], Callback(ps));
    assert ReplaceBlocksWith([], Callback(ps)) == [];
  }

  /** A template of text and one block whose value is `r` renders as the
      second pass renders the text followed by `r`. */
  lemma OneBlockTemplate(t: string, body: string, ps: Params, r: string, out: string)
    requires '{' !in t && '}' !in body && '\n' !in body
    requires BlockValue(body, ps) == r && Substitute(t + r, ps) == out
    ensures Render(t + "{{" + body + "}}", ps) == out
  {
    OneBlock(t, body, ps, r);
  }

  /** Pass 1 on text, a block, text and a block. */
  lemma TwoBlocks(t1: string, body1: string, t2: string, body2: string,
                  ps: Params, r1: string, r2: string)
    requires '{' !in t1 && '}' !in body1 && '\n' !in body1
    requires '{' !in t2 && '}' !in body2 && '\n' !in body2
    requires BlockValue(body1, ps) == r1 && BlockValue(body2, ps) == r2
    ensures ResolveBlocks(t1 + "{{" + body1 + "}}" + t2 + "{{" + body2 + "}}", ps) == t1 + r1 + (t2 + r2)
  {
    var second := t2 + "{{" + body2 + "}}";
    TwoBlocksRegroup(t1, body1, t2, body2);
    PlainTextKept(t1, "{{" + body1 + "}}" + second, Callback(ps));
    BlockReplaced(body1, second, Callback(ps));
    AppendAssoc(t1, r1, t2 + r2);
    OneBlock(t2, body2, ps, r2);
  }

  /** A template of text, a block, text and a block renders as the second
      pass renders the texts and the two block values in order. */
  lemma TwoBlockTemplate(t1: string, body1: string, t2: string, body2: string,
                         ps: Params, r1: string, r2: string, out: string)
    requires '{' !in t1 && '}' !in body1 && '\n' !in body1
    requires '{' !in t2 && '}' !in body2 && '\n' !in body2
    requires BlockValue(body1, ps) == r1 && BlockValue(body2, ps) == r2
    requires Substitute(t1 + r1 + (t2 + r2), ps) == out
    ensures Render(t1 + "{{" + body1 + "}}" + t2 + "{{" + body2 + "}}", ps) == out
  {
    TwoBlocks(t1, body1, t2, body2, ps, r1, r2);
  }

  /** Pass 2 with one parameter on a kept condition between colon-free
      texts. */
  lemma SubstituteCondition(t: string, pre: string, n: string, v: Value, rest: string)
    requires ':' !in t && ':' !in pre && ':' !in rest
    ensures Substitute(t + (pre + ":" + n) + rest, [Param(n, v)]) == t + pre + Literal(v) + rest
  {
    assert ':' !in t + pre;
    assert t + (pre + ":" + n) + rest == (t + pre) + ":" + n + rest;
    SubstituteOne(t + pre, n, v, rest);
  }

  /** The same with nothing after the condition. */
  lemma SubstituteConditionLast(t: string, pre: string, n: string, v: Value)
    requires ':' !in t && ':' !in pre
    ensures Substitute(t + (pre + ":" + n), [Param(n, v)]) == t + pre + Literal(v)
  {
    SubstituteCondition(t, pre, n, v, []);
    assert t + (pre + ":" + n) + [] == t + (pre + ":" + n);
    assert t + pre + Literal(v) + [] == t + pre + Literal(v);
  }

  /** Pass 2 leaves a colon-free text alone. */
  lemma SubstituteColonFree(q: string, ps: Params)
    requires ':' !in q
    ensures Substitute(q, ps) == q
  {
    NoColonNoKeys(q, ps);
    SubstituteAbsentKeys(q, ps);
  }

  // The characters of the tests' block bodies.

  lemma KeptBodyChars(pre: string, n: string, alt: string)
    requires Condition(pre, n) && '}' !in alt && '\n' !in alt
    ensures '}' !in pre + ":" + n + " else " + alt && '\n' !in pre + ":" + n + " else " + alt
  {
    NameChars(n);
  }

  lemma QuotedBodyChars(pre: string, n: string, x: string)
    requires Condition(pre, n) && '}' !in x && '\n' !in x
    ensures '}' !in pre + ":" + n + " else '" + x + "'" && '\n' !in pre + ":" + n + " else '" + x + "'"
  {
    NameChars(n);
  }

  lemma CommentBodyChars(pre: string, n: string, alt: string)
    requires Condition(pre, n) && '}' !in alt && '\n' !in alt
    ensures '}' !in "/* " + pre + ":" + n + " */ else " + alt
    ensures '\n' !in "/* " + pre + ":" + n + " */ else " + alt
  {
    NameChars(n);
  }

  /** "Param present logic" (t = `WHERE 1=1 AND `, pre = `status = `,
      n = `status`, alt = `'1=1'`, value the string `active`): the kept
      condition's placeholder is then replaced by pass 2. */
  lemma ParamPresent(t: string, pre: string, n: string, alt: string, v: Value)
    requires '{' !in t && ':' !in t && Condition(pre, n)
    requires '}' !in alt && '\n' !in alt
    ensures Render(t + "{{" + (pre + ":" + n + " else " + alt) + "}}", [Param(n, v)])
            == t + pre + Literal(v)
  {
    var ps := [Param(n, v)];
    KeysOfOne(n, v);
    ConditionKept(pre, n, alt, ps);
    KeptBodyChars(pre, n, alt);
    SubstituteConditionLast(t, pre, n, v);
    OneBlockTemplate(t, pre + ":" + n + " else " + alt, ps, pre + ":" + n, t + pre + Literal(v));
  }

  /** "Param missing - use else" (t = `WHERE 1=1 AND `, pre = `status = `,
      n = `status`, x = `1=0`, parameters without `status`). */
  lemma ParamMissingElse(t: string, pre: string, n: string, x: string, ps: Params)
    requires '{' !in t && ':' !in t && Condition(pre, n) && n !in Keys(ps)
    requires 'e' !in x && ':' !in x && '}' !in x && '\n' !in x
    ensures Render(t + "{{" + (pre + ":" + n + " else '" + x + "'") + "}}", ps) == t + x
  {
    ConditionElse(pre, n, x, ps);
    QuotedBodyChars(pre, n, x);
    SubstituteColonFree(t + x, ps);
    OneBlockTemplate(t, pre + ":" + n + " else '" + x + "'", ps, x, t + x);
  }

  /** "Param missing - no else" (t = `WHERE `, pre = `status = `,
      n = `status`, parameters without `status`). */
  lemma ParamMissingNoElse(t: string, pre: string, n: string, ps: Params)
    requires '{' !in t && ':' !in t && Condition(pre, n) && n !in Keys(ps)
    ensures Render(t + "{{" + (pre + ":" + n) + "}}", ps) == t
  {
    ConditionDropped(pre, n, ps);
    NameChars(n);
    assert t + "" == t;
    SubstituteColonFree(t, ps);
    OneBlockTemplate(t, pre + ":" + n, ps, "", t);
  }

  /** "Direct replacement" (a = `SELECT * FROM users WHERE id = `, n = `id`,
      value 123) and "String quoting" (a = `name = `, n = `name`, value the
      string `John`). */
  lemma DirectReplacement(a: string, n: string, v: Value)
    requires '{' !in a && ':' !in a && IsName(n)
    ensures Render(a + ":" + n, [Param(n, v)]) == a + Literal(v)
  {
    var q := a + ":" + n;
    NameChars(n);
    AbsentFirstChar(q, "{{");
    NoOpenerUnchanged(q, Callback([Param(n, v)]));
    assert a + ":" + n + [] == q;
    SubstituteOne(a, n, v, []);
    assert a + Literal(v) + [] == a + Literal(v);
  }

  /** "Comments removal" (t empty, pre = `x = `, n = `x`, alt = `'y'`,
      value 1). */
  lemma CommentsRemoval(t: string, pre: string, n: string, alt: string, v: Value)
    requires '{' !in t && ':' !in t && Condition(pre, n)
    requires '}' !in alt && '\n' !in alt
    ensures Render(t + "{{" + ("/* " + pre + ":" + n + " */ else " + alt) + "}}", [Param(n, v)])
            == t + pre + Literal(v)
  {
    var ps := [Param(n, v)];
    KeysOfOne(n, v);
    CommentedConditionKept(pre, n, alt, ps);
    CommentBodyChars(pre, n, alt);
    SubstituteConditionLast(t, pre, n, v);
    OneBlockTemplate(t, "/* " + pre + ":" + n + " */ else " + alt, ps, pre + ":" + n,
                     t + pre + Literal(v));
  }

  /** "Multiple blocks" (t1 = `WHERE 1=1 AND `, a = `a`, t2 = ` AND `,
      b = `b`, xb = `no_b`, value 10, both conditions `k=:k`): each block is
      resolved on its own. */
  lemma MultipleBlocks(t1: string, preA: string, a: string, altA: string,
                       t2: string, preB: string, b: string, xb: string, v: Value)
    requires '{' !in t1 && ':' !in t1 && '{' !in t2 && ':' !in t2
    requires Condition(preA, a) && '}' !in altA && '\n' !in altA
    requires Condition(preB, b) && b != a
    requires 'e' !in xb && ':' !in xb && '}' !in xb && '\n' !in xb
    ensures Render(t1 + "{{" + (preA + ":" + a + " else " + altA) + "}}"
                   + t2 + "{{" + (preB + ":" + b + " else '" + xb + "'") + "}}", [Param(a, v)])
            == t1 + preA + Literal(v) + (t2 + xb)
  {
    var ps := [Param(a, v)];
    KeysOfOne(a, v);
    ConditionKept(preA, a, altA, ps);
    ConditionElse(preB, b, xb, ps);
    KeptBodyChars(preA, a, altA);
    QuotedBodyChars(preB, b, xb);
    assert ':' !in t2 + xb;
    SubstituteCondition(t1, preA, a, v, t2 + xb);
    TwoBlockTemplate(t1, preA + ":" + a + " else " + altA, t2, preB + ":" + b + " else '" + xb + "'",
                     ps, preA + ":" + a, xb, t1 + preA + Literal(v) + (t2 + xb));
  }

  // ---------------------------------------------------------------------
  // The test's own strings: each case is an instance of the lemma above
  // it. The text lemmas spell out the instance's query and result, one
  // short piece at a time.

  lemma WherePlain()
    ensures '{' !in "WHERE 1=1 AND " && ':' !in "WHERE 1=1 AND "
    ensures '{' !in "WHERE " && ':' !in "WHERE "
  {
  }

  lemma StatusCondition()
    ensures Condition("status = ", "status")
  {
    assert !IsSpace('s');
  }

  lemma QuotedAlternatives()
    ensures '}' !in "'1=1'" && '\n' !in "'1=1'"
    ensures 'e' !in "1=0" && ':' !in "1=0" && '}' !in "1=0" && '\n' !in "1=0"
    ensures '}' !in "'y'" && '\n' !in "'y'"
    ensures '}' !in "'no_a'" && '\n' !in "'no_a'"
    ensures 'e' !in "no_b" && ':' !in "no_b" && '}' !in "no_b" && '\n' !in "no_b"
  {
  }

  lemma ParamPresentBody()
    ensures "status = " + ":" + "status" + " else " + "'1=1'" == "status = :status else '1=1'"
  {
    assert "status = " + ":" == "status = :";
    assert "status = :" + "status" == "status = :status";
    assert "status = :status" + " else " == "status = :status else ";
  }

  lemma ParamPresentQuery()
    ensures "WHERE 1=1 AND " + "{{" + ("status = " + ":" + "status" + " else " + "'1=1'") + "}}"
            == "WHERE 1=1 AND {{status = :status else '1=1'}}"
  {
    ParamPresentBody();
    assert "WHERE 1=1 AND " + "{{" == "WHERE 1=1 AND {{";
    assert "WHERE 1=1 AND {{" + "status = :status else '1=1'" == "WHERE 1=1 AND {{status = :status else '1=1'";
  }

  lemma ParamPresentResult()
    ensures "WHERE 1=1 AND " + "status = " + Literal(Str("active")) == "WHERE 1=1 AND status = \"active\""
  {
    assert Literal(Str("active")) == "\"active\"";
    assert "WHERE 1=1 AND " + "status = " == "WHERE 1=1 AND status = ";
  }

  /** "Param present logic", on the test's own query. */
  lemma ParamPresentCase()
    ensures Render("WHERE 1=1 AND {{status = :status else '1=1'}}", [Param("status", Str("active"))])
            == "WHERE 1=1 AND status = \"active\""
  {
    WherePlain();
    StatusCondition();
    QuotedAlternatives();
    ParamPresent("WHERE 1=1 AND ", "status = ", "status", "'1=1'", Str("active"));
    ParamPresentQuery();
    ParamPresentResult();
  }

  lemma ParamMissingElseBody()
    ensures "status = " + ":" + "status" + " else '" + "1=0" + "'" == "status = :status else '1=0'"
  {
    assert "status = " + ":" == "status = :";
    assert "status = :" + "status" == "status = :status";
    assert "status = :status" + " else '" == "status = :status else '";
    assert "status = :status else '" + "1=0" == "status = :status else '1=0";
  }

  lemma ParamMissingElseQuery()
    ensures "WHERE 1=1 AND " + "{{" + ("status = " + ":" + "status" + " else '" + "1=0" + "'") + "}}"
            == "WHERE 1=1 AND {{status = :status else '1=0'}}"
  {
    ParamMissingElseBody();
    assert "WHERE 1=1 AND " + "{{" == "WHERE 1=1 AND {{";
    assert "WHERE 1=1 AND {{" + "status = :status else '1=0'" == "WHERE 1=1 AND {{status = :status else '1=0'";
  }

  /** "Param missing - use else", on the test's own query. */
  lemma ParamMissingElseCase()
    ensures Render("WHERE 1=1 AND {{status = :status else '1=0'}}", [Param("other", Str("val"))])
            == "WHERE 1=1 AND 1=0"
  {
    KeysOfOne("other", Str("val"));
    WherePlain();
    StatusCondition();
    QuotedAlternatives();
    ParamMissingElse("WHERE 1=1 AND ", "status = ", "status", "1=0", [Param("other", Str("val"))]);
    ParamMissingElseQuery();
    assert "WHERE 1=1 AND " + "1=0" == "WHERE 1=1 AND 1=0";
  }

  lemma ParamMissingNoElseQuery()
    ensures "WHERE " + "{{" + ("status = " + ":" + "status") + "}}" == "WHERE {{status = :status}}"
  {
    assert "status = " + ":" + "status" == "status = :status" by {
      assert "status = " + ":" == "status = :";
    }
    assert "WHERE " + "{{" == "WHERE {{";
    assert "WHERE {{" + "status = :status" == "WHERE {{status = :status";
  }

  /** "Param missing - no else", on the test's own query. */
  lemma ParamMissingNoElseCase()
    ensures Render("WHERE {{status = :status}}", [Param("other", Str("val"))]) == "WHERE "
  {
    KeysOfOne("other", Str("val"));
    WherePlain();
    StatusCondition();
    ParamMissingNoElse("WHERE ", "status = ", "status", [Param("other", Str("val"))]);
    ParamMissingNoElseQuery();
  }

  lemma DirectReplacementText()
    ensures "SELECT * FROM users WHERE id = " + ":" + "id" == "SELECT * FROM users WHERE id = :id"
    ensures "SELECT * FROM users WHERE id = " + Literal(Int(123)) == "SELECT * FROM users WHERE id = 123"
  {
    assert "SELECT * FROM users WHERE id = " + ":" == "SELECT * FROM users WHERE id = :";
    assert Literal(Int(123)) == "123";
  }

  lemma SelectPlain()
    ensures '{' !in "SELECT * FROM users WHERE id = " && ':' !in "SELECT * FROM users WHERE id = "
  {
  }

  lemma NamePlain()
    ensures '{' !in "name = " && ':' !in "name = "
  {
  }

  /** "Direct replacement", on the test's own query. */
  lemma DirectReplacementCase()
    ensures Render("SELECT * FROM users WHERE id = :id", [Param("id", Int(123))])
            == "SELECT * FROM users WHERE id = 123"
  {
    assert IsName("id");
    SelectPlain();
    DirectReplacement("SELECT * FROM users WHERE id = ", "id", Int(123));
    DirectReplacementText();
  }

  lemma CommentsRemovalQuery()
    ensures "" + "{{" + ("/* " + "x = " + ":" + "x" + " */ else " + "'y'") + "}}" == "{{/* x = :x */ else 'y'}}"
  {
    assert "/* " + "x = " + ":" + "x" + " */ else " + "'y'" == "/* x = :x */ else 'y'" by {
      assert "/* " + "x = " == "/* x = ";
      assert "/* x = " + ":" == "/* x = :";
      assert "/* x = :" + "x" == "/* x = :x";
      assert "/* x = :x" + " */ else " == "/* x = :x */ else ";
    }
    assert "" + "{{" == "{{";
    assert "{{" + "/* x = :x */ else 'y'" == "{{/* x = :x */ else 'y'";
  }

  /** "Comments removal", on the test's own query. */
  lemma CommentsRemovalCase()
    ensures Render("{{/* x = :x */ else 'y'}}", [Param("x", Int(1))]) == "x = 1"
  {
    assert !IsSpace('x') && Condition("x = ", "x");
    QuotedAlternatives();
    CommentsRemoval("", "x = ", "x", "'y'", Int(1));
    CommentsRemovalQuery();
    assert Literal(Int(1)) == "1";
    assert "" + "x = " + "1" == "x = 1";
  }

  lemma MultipleBlocksBodies()
    ensures "a=" + ":" + "a" + " else " + "'no_a'" == "a=:a else 'no_a'"
    ensures "b=" + ":" + "b" + " else '" + "no_b" + "'" == "b=:b else 'no_b'"
  {
    assert "a=" + ":" == "a=:";
    assert "a=:" + "a" == "a=:a";
    assert "a=:a" + " else " == "a=:a else ";
    assert "b=" + ":" == "b=:";
    assert "b=:" + "b" == "b=:b";
    assert "b=:b" + " else '" == "b=:b else '";
    assert "b=:b else '" + "no_b" == "b=:b else 'no_b";
  }

  lemma MultipleBlocksQuery()
    ensures "WHERE 1=1 AND " + "{{" + ("a=" + ":" + "a" + " else " + "'no_a'") + "}}"
            + " AND " + "{{" + ("b=" + ":" + "b" + " else '" + "no_b" + "'") + "}}"
            == "WHERE 1=1 AND {{a=:a else 'no_a'}} AND {{b=:b else 'no_b'}}"
  {
    MultipleBlocksBodies();
    assert "WHERE 1=1 AND " + "{{" == "WHERE 1=1 AND {{";
    assert "WHERE 1=1 AND {{" + "a=:a else 'no_a'" == "WHERE 1=1 AND {{a=:a else 'no_a'";
    assert "WHERE 1=1 AND {{a=:a else 'no_a'" + "}}" == "WHERE 1=1 AND {{a=:a else 'no_a'}}";
    assert "WHERE 1=1 AND {{a=:a else 'no_a'}}" + " AND " == "WHERE 1=1 AND {{a=:a else 'no_a'}} AND ";
    assert "WHERE 1=1 AND {{a=:a else 'no_a'}} AND " + "{{" == "WHERE 1=1 AND {{a=:a else 'no_a'}} AND {{";
    assert "WHERE 1=1 AND {{a=:a else 'no_a'}} AND {{" + "b=:b else 'no_b'"
           == "WHERE 1=1 AND {{a=:a else 'no_a'}} AND {{b=:b else 'no_b'";
  }

  lemma MultipleBlocksResult()
    ensures "WHERE 1=1 AND " + "a=" + Literal(Int(10)) + (" AND " + "no_b") == "WHERE 1=1 AND a=10 AND no_b"
  {
    assert Literal(Int(10)) == "10";
    assert " AND " + "no_b" == " AND no_b";
    assert "WHERE 1=1 AND " + "a=" == "WHERE 1=1 AND a=";
    assert "WHERE 1=1 AND a=" + "10" == "WHERE 1=1 AND a=10";
  }

  /** "Multiple blocks", on the test's own query. */
  lemma MultipleBlocksCase()
    ensures Render("WHERE 1=1 AND {{a=:a else 'no_a'}} AND {{b=:b else 'no_b'}}", [Param("a", Int(10))])
            == "WHERE 1=1 AND a=10 AND no_b"
  {
    assert !IsSpace('a') && !IsSpace('b') && Condition("a=", "a") && Condition("b=", "b");
    WherePlain();
    QuotedAlternatives();
    assert '{' !in " AND " && ':' !in " AND ";
    MultipleBlocks("WHERE 1=1 AND ", "a=", "a", "'no_a'", " AND ", "b=", "b", "no_b", Int(10));
    MultipleBlocksQuery();
    MultipleBlocksResult();
  }

  lemma StringQuotingText()
    ensures "name = " + ":" + "name" == "name = :name"
    ensures "name = " + Literal(Str("John")) == "name = \"John\""
  {
    assert "name = " + ":" == "name = :";
    assert Literal(Str("John")) == "\"John\"";
  }

  /** "String quoting", on the test's own query. */
  lemma StringQuotingCase()
    ensures Render("name = :name", [Param("name", Str("John"))]) == "name = \"John\""
  {
    assert IsName("name");
    NamePlain();
    DirectReplacement("name = ", "name", Str("John"));
    StringQuotingText();
  }
}
