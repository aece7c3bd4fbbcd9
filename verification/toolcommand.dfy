/**
 * The direct tool command `tool: <name> key=value ...` typed by a user: the
 * routing test that recognises it and the parser that turns it into a tool
 * name plus keyword arguments.
 */
module ToolCommand {
  import opened Wrappers
  import opened Text

  const Prefix := "tool:"

  /** `query.strip().lower().startswith('tool:')`: the query goes down the tool path. */
  predicate IsToolQuery(query: string) {
    StartsWith(Lower(Strip(query)), Prefix)
  }

  /**
   * The routing test read on the raw query: right after its leading
   * whitespace, the lower-cased query spells `tool:`. Trailing whitespace
   * and letter case do not matter.
   */
  lemma RoutingSkipsLeadingSpace(query: string)
    ensures IsToolQuery(query) <==> OccursAt(Lower(query), Prefix, LeadingSpace(query))
  {
    if IsToolQuery(query) {
      RoutedQuerySpellsPrefix(query);
    }
    if OccursAt(Lower(query), Prefix, LeadingSpace(query)) {
      SpelledPrefixRoutes(query);
    }
  }

  lemma RoutedQuerySpellsPrefix(query: string)
    requires IsToolQuery(query)
    ensures OccursAt(Lower(query), Prefix, LeadingSpace(query))
  {
    var l := LeadingSpace(query);
    var s := Strip(query);
    StripIsSlice(query);
    assert s == query[l..l + |s|];
    LowerSliceStartsWith(query, l, |s|, Prefix);
  }

  /** A word that starts the lower-cased slice `s[l..l + n]` occurs in the lower-cased `s` at `l`. */
  lemma LowerSliceStartsWith(s: string, l: nat, n: nat, w: string)
    requires l + n <= |s| && StartsWith(Lower(s[l..l + n]), w)
    ensures OccursAt(Lower(s), w, l)
  {
    var t := Lower(s[l..l + n]);
    forall k | 0 <= k < |w|
      ensures Lower(s)[l + k] == w[k]
    {
      assert t[..|w|][k] == w[k];
    }
    assert Lower(s)[l..l + |w|] == w;
  }

  lemma SpelledPrefixRoutes(query: string)
    requires OccursAt(Lower(query), Prefix, LeadingSpace(query))
    ensures IsToolQuery(query)
  {
    var l := LeadingSpace(query);
    var s := Strip(query);
    StripIsSlice(query);
    PrefixEndsUnspaced(query, l);
    StripRemovesOnlySpace(query);
    assert l + |Prefix| <= l + |s|;
    LowerOfSlice(query, l, |s|, |Prefix|);
  }

  /** Where the lower-cased query spells `tool:`, its fifth character is a colon, which is not whitespace. */
  lemma PrefixEndsUnspaced(query: string, l: nat)
    requires OccursAt(Lower(query), Prefix, l)
    ensures !IsSpace(query[l + |Prefix| - 1])
  {
    assert Lower(query)[l + 4] == Prefix[4];
    assert query[l + 4] == ':';
    VisibleIsNotSpace(':');
  }

  /** The first `k` characters of a lower-cased slice are that stretch of the lower-cased string. */
  lemma LowerOfSlice(s: string, l: nat, n: nat, k: nat)
    requires k <= n && l + n <= |s|
    ensures Lower(s[l..l + n])[..k] == Lower(s)[l..l + k]
  {
  }

  // ---------------------------------------------------------------------------
  // Keyword arguments: an insertion-ordered dict from names to string values
  // ---------------------------------------------------------------------------

  type Args = seq<(string, string)>

  /** `kwargs.get(k)`. */
  function Lookup(a: Args, k: string): Option<string>
    decreases |a|
  {
    if |a| == 0 then None else if a[0].0 == k then Some(a[0].1) else Lookup(a[1..], k)
  }

  /** No key occurs twice. */
  predicate DistinctKeys(a: Args)
    decreases |a|
  {
    |a| == 0 || (Lookup(a[1..], a[0].0).None? && DistinctKeys(a[1..]))
  }

  /**
   * `kwargs[k] = v`: the key now maps to `v`, no other key changes, and the
   * keys already present keep their positions (a new key goes last).
   */
  function Put(a: Args, k: string, v: string): (r: Args)
    ensures Lookup(r, k) == Some(v)
    ensures forall k' :: k' != k ==> Lookup(r, k') == Lookup(a, k')
    ensures DistinctKeys(a) ==> DistinctKeys(r)
    ensures |a| <= |r| <= |a| + 1
    ensures forall i :: 0 <= i < |a| ==> r[i].0 == a[i].0
    decreases |a|
  {
    if |a| == 0 then [(k, v)]
    else if a[0].0 == k then [(k, v)] + a[1..]
    else
      var r := [a[0]] + Put(a[1..], k, v);
      assert r[1..] == Put(a[1..], k, v);
      r
  }

  // ---------------------------------------------------------------------------
  // Parameter tokens
  // ---------------------------------------------------------------------------

  /** What one parameter token contributes: a key and a value, or nothing. */
  type Binding = Option<(string, string)>

  /**
   * `key, value = param.split('=', 1)` followed by stripping both halves;
   * `None` for a token without `=`, which the parser ignores.
   */
  function KeyValue(token: string): (r: Binding)
    ensures r.None? <==> '=' !in token
  {
    match IndexOf(token, '=')
    case None => None
    case Some(i) => Some((Strip(token[..i]), Strip(token[i + 1..])))
  }

  /**
   * On a token without whitespace (every token `split()` produces) the key
   * holds no `=`, and key, `=` and value rebuild the token.
   */
  lemma KeyValueRebuildsToken(token: string)
    requires NoSpace(token) && '=' in token
    ensures '=' !in KeyValue(token).value.0
    ensures token == KeyValue(token).value.0 + "=" + KeyValue(token).value.1
  {
    var i := IndexOf(token, '=').value;
    KeyValueOfUnspaced(token);
    SplitAround(token, i);
  }

  /** On a whitespace-free token, stripping the two halves changes nothing. */
  lemma KeyValueOfUnspaced(token: string)
    requires NoSpace(token) && '=' in token
    ensures var i := IndexOf(token, '=').value;
      KeyValue(token) == Some((token[..i], token[i + 1..]))
  {
    var i := IndexOf(token, '=').value;
    assert KeyValue(token) == Some((Strip(token[..i]), Strip(token[i + 1..])));
    StripOfUnspacedPrefix(token, i);
    StripOfUnspacedSuffix(token, i + 1);
  }

  lemma StripOfUnspacedPrefix(s: string, i: nat)
    requires NoSpace(s) && i <= |s|
    ensures Strip(s[..i]) == s[..i]
  {
    if i > 0 {
      assert s[..i][0] == s[0] && s[..i][i - 1] == s[i - 1];
      assert !IsSpace(s[0]) && !IsSpace(s[i - 1]);
    }
    StripOfUnpadded(s[..i]);
  }

  lemma StripOfUnspacedSuffix(s: string, i: nat)
    requires NoSpace(s) && i <= |s|
    ensures Strip(s[i..]) == s[i..]
  {
    if i < |s| {
      assert s[i..][0] == s[i] && s[i..][|s| - i - 1] == s[|s| - 1];
      assert !IsSpace(s[i]) && !IsSpace(s[|s| - 1]);
    }
    StripOfUnpadded(s[i..]);
  }

  /** The binding `b` assigns key `k`. */
  predicate Binds(b: Binding, k: string) {
    b.Some? && b.value.0 == k
  }

  /** The parameter loop over bindings: each one assigns `kwargs[key] = value`, left to right. */
  function Assign(bs: seq<Binding>): (a: Args)
    ensures DistinctKeys(a)
    decreases |bs|
  {
    if |bs| == 0 then []
    else
      var a := Assign(bs[..|bs| - 1]);
      match bs[|bs| - 1]
      case None => a
      case Some((k, v)) => Put(a, k, v)
  }

  /** The last binding either rebinds `k` or leaves it as the earlier bindings made it. */
  lemma AssignStep(bs: seq<Binding>, k: string)
    requires |bs| > 0
    ensures var last := bs[|bs| - 1];
      Lookup(Assign(bs), k) == if Binds(last, k) then Some(last.value.1) else Lookup(Assign(bs[..|bs| - 1]), k)
  {
  }

  /** Binding `i` assigns `k` and no later binding does. */
  predicate LastBinder(bs: seq<Binding>, k: string, i: int) {
    && 0 <= i < |bs|
    && Binds(bs[i], k)
    && forall j :: i < j < |bs| ==> !Binds(bs[j], k)
  }

  /** How the last binder of a list relates to the last binder of all but its last element. */
  lemma LastBinderOfPrefix(bs: seq<Binding>, k: string)
    requires |bs| > 0
    ensures var n := |bs| - 1;
      && (Binds(bs[n], k) ==> forall i :: LastBinder(bs, k, i) ==> i == n)
      && (!Binds(bs[n], k) ==> forall i :: LastBinder(bs, k, i) ==> LastBinder(bs[..n], k, i) && bs[..n][i] == bs[i])
      && ((forall i :: 0 <= i < |bs| ==> !Binds(bs[i], k))
          <==> !Binds(bs[n], k) && forall i :: 0 <= i < n ==> !Binds(bs[..n][i], k))
  {
    var n := |bs| - 1;
    var init := bs[..n];
    forall i | 0 <= i < n
      ensures init[i] == bs[i]
    {
    }
    if !Binds(bs[n], k) {
      forall i | LastBinder(bs, k, i)
        ensures LastBinder(init, k, i)
      {
        forall j | i < j < n
          ensures !Binds(init[j], k)
        {
          assert init[j] == bs[j];
        }
      }
    }
  }

  /**
   * A key is assigned iff some binding assigns it, and then to the value of
   * the LAST binding that assigns it.
   */
  lemma {:induction false} AssignKeepsLastBinding(bs: seq<Binding>, k: string)
    ensures Lookup(Assign(bs), k).None? <==> forall i :: 0 <= i < |bs| ==> !Binds(bs[i], k)
    ensures forall i :: LastBinder(bs, k, i) ==> Lookup(Assign(bs), k) == Some(bs[i].value.1)
    decreases |bs|
  {
    if |bs| > 0 {
      var n := |bs| - 1;
      AssignKeepsLastBinding(bs[..n], k);
      AssignStep(bs, k);
      LastBinderOfPrefix(bs, k);
      forall i | LastBinder(bs, k, i)
        ensures Lookup(Assign(bs), k) == Some(bs[i].value.1)
      {
        if i < n {
          assert LastBinder(bs[..n], k, i);
        }
      }
    }
  }

  /** The binding of each parameter token, in order. */
  function Bindings(tokens: seq<string>): (bs: seq<Binding>)
    ensures |bs| == |tokens|
    ensures forall i {:trigger bs[i]} :: 0 <= i < |tokens| ==> bs[i] == KeyValue(tokens[i])
  {
    seq(|tokens|, i requires 0 <= i < |tokens| => KeyValue(tokens[i]))
  }

  /** `for param in param_str.split(): if '=' in param: ...`: the keyword arguments the tokens build. */
  function ParseParams(tokens: seq<string>): (a: Args)
    ensures DistinctKeys(a)
  {
    Assign(Bindings(tokens))
  }

  /** The token is a `key=value` pair whose key is `k`. */
  predicate BindsKey(token: string, k: string) {
    Binds(KeyValue(token), k)
  }

  /** Token `i` binds `k` and no later token does. */
  predicate LastBindingToken(tokens: seq<string>, k: string, i: int) {
    && 0 <= i < |tokens|
    && BindsKey(tokens[i], k)
    && forall j :: i < j < |tokens| ==> !BindsKey(tokens[j], k)
  }

  /**
   * A key is bound iff some token binds it, and then to the value of the
   * LAST token that binds it; tokens without `=` contribute nothing.
   */
  lemma ParamsKeepLastBinding(tokens: seq<string>, k: string)
    ensures Lookup(ParseParams(tokens), k).None? <==> forall i :: 0 <= i < |tokens| ==> !BindsKey(tokens[i], k)
    ensures forall i :: LastBindingToken(tokens, k, i) ==> Lookup(ParseParams(tokens), k) == Some(KeyValue(tokens[i]).value.1)
  {
    var bs := Bindings(tokens);
    AssignKeepsLastBinding(bs, k);
    assert (forall i :: 0 <= i < |bs| ==> !Binds(bs[i], k)) <==> (forall i :: 0 <= i < |tokens| ==> !BindsKey(tokens[i], k)) by {
      forall i | 0 <= i < |tokens|
        ensures Binds(bs[i], k) == BindsKey(tokens[i], k)
      {
      }
    }
    forall i | LastBindingToken(tokens, k, i)
      ensures Lookup(ParseParams(tokens), k) == Some(KeyValue(tokens[i]).value.1)
    {
      assert LastBinder(bs, k, i) by {
        forall j | i < j < |bs|
          ensures !Binds(bs[j], k)
        {
          assert bs[j] == KeyValue(tokens[j]);
        }
      }
    }
  }

  // ---------------------------------------------------------------------------
  // The command
  // ---------------------------------------------------------------------------

  datatype Invocation = Invocation(name: string, args: Args)

  /** `str(e)` of the `IndexError` raised by `parts[0]` when nothing follows the prefix. */
  const MissingToolName := "list index out of range"

  /** `query[len('tool:'):].strip()`: the five-character prefix is sliced off the raw query. */
  function CommandText(query: string): (cmd: string)
    ensures |cmd| > 0 ==> !IsSpace(cmd[0]) && !IsSpace(cmd[|cmd| - 1])
  {
    Strip(DropPrefix(query, |Prefix|))
  }

  /**
   * The command text after `tool:`: split off the tool name at the first
   * whitespace and parse the remaining tokens as keyword arguments. An
   * empty command makes `parts[0]` fail.
   */
  function ParseCommand(cmd: string): (r: Result<Invocation, string>)
    requires |cmd| > 0 ==> !IsSpace(cmd[0]) && !IsSpace(cmd[|cmd| - 1])
    ensures r.Failure? <==> cmd == ""
    ensures r.Failure? ==> r.error == MissingToolName
    ensures r.Success? ==> var ts := Tokens(cmd);
      && |ts| > 0
      && r.value.name == ts[0]
      && r.value.args == ParseParams(ts[1..])
  {
    var parts := SplitFirst(cmd);
    SplitFirstOfStripped(cmd);
    if |parts| == 0 then
      Failure(MissingToolName)
    else
      var name := Strip(parts[0]);
      var params := if |parts| > 1 then ParseParams(Tokens(Strip(parts[1]))) else [];
      Success(Invocation(name, params))
  }

  /** `_handle_tool_query` up to the tool call. */
  function ParseToolCommand(query: string): (r: Result<Invocation, string>)
    ensures r.Failure? <==> CommandText(query) == ""
    ensures r.Failure? ==> r.error == MissingToolName
    ensures r.Success? ==> var ts := Tokens(CommandText(query));
      && |ts| > 0
      && r.value.name == ts[0]
      && r.value.args == ParseParams(ts[1..])
  {
    ParseCommand(CommandText(query))
  }

  /**
   * Parsing a command never loses its tool name and binds exactly the last
   * value given for each key.
   */
  lemma ParsedArgsAreLastBindings(query: string, k: string)
    requires ParseToolCommand(query).Success?
    ensures var ts := Tokens(CommandText(query))[1..];
      var a := ParseToolCommand(query).value.args;
      && DistinctKeys(a)
      && (Lookup(a, k).None? <==> forall i :: 0 <= i < |ts| ==> !BindsKey(ts[i], k))
      && (forall i :: LastBindingToken(ts, k, i) ==> Lookup(a, k) == Some(KeyValue(ts[i]).value.1))
  {
    var ts := Tokens(CommandText(query))[1..];
    assert ParseToolCommand(query).value.args == ParseParams(ts);
    ParamsKeepLastBinding(ts, k);
  }

  /** The parameter names `call_tool(self, tool_name, **kwargs)` already binds positionally. */
  predicate IsBoundParameter(k: string) {
    k == "self" || k == "tool_name"
  }

  /**
   * The first keyword argument that collides with `call_tool`'s own
   * parameters, which makes Python raise a `TypeError` ("got multiple
   * values for argument") before the call starts.
   */
  function CallConflict(a: Args): (r: Option<string>)
    ensures r.Some? ==> IsBoundParameter(r.value) && Lookup(a, r.value).Some?
    ensures r.Some? ==> exists i :: 0 <= i < |a| && a[i].0 == r.value && forall j :: 0 <= j < i ==> !IsBoundParameter(a[j].0)
    ensures r.None? ==> Lookup(a, "self").None? && Lookup(a, "tool_name").None?
    decreases |a|
  {
    if |a| == 0 then None
    else if IsBoundParameter(a[0].0) then Some(a[0].0)
    else CallConflict(a[1..])
  }

  // ---------------------------------------------------------------------------
  // The prefix is sliced off the raw query, not off the stripped one
  // ---------------------------------------------------------------------------

  /**
   * On a query that does not start with whitespace (the web entry point
   * strips every query before handing it over), the five characters sliced
   * off are exactly the `tool:` prefix the routing test matched.
   */
  lemma {:induction false} SlicedPrefixIsToolPrefix(query: string)
    requires IsToolQuery(query)
    requires |query| == 0 || !IsSpace(query[0])
    ensures |query| >= |Prefix| && Lower(query[..|Prefix|]) == Prefix
  {
    StripLeftOfUnspaced(query);
    StripIsSlice(query);
    var s := Strip(query);
    assert LeadingSpace(query) == 0;
    assert s == query[..|s|];
    assert Lower(query[..|Prefix|]) == Lower(s)[..|Prefix|];
  }

  /**
   * With leading whitespace the raw slice cuts into the prefix instead:
   * `"  tool: list_cases"`, like every query of that shape, is routed to the
   * tool path, yet the tool it names is `l:` and the intended tool name
   * becomes an ignored parameter token.
   */
  lemma LeadingSpaceShiftsPrefix(name: string)
    requires |name| > 0 && NoSpace(name) && '=' !in name
    ensures IsToolQuery("  tool: " + name)
    ensures ParseToolCommand("  tool: " + name) == Success(Invocation("l:", []))
  {
    var q := "  tool: " + name;
    RoutedWithLeadingSpace(name);
    assert CommandText(q) == "l: " + name;
    ShiftedCommand(name);
  }

  /** Routing and slicing of `"  tool: " + name`. */
  lemma RoutedWithLeadingSpace(name: string)
    requires |name| > 0 && NoSpace(name)
    ensures IsToolQuery("  tool: " + name)
    ensures CommandText("  tool: " + name) == "l: " + name
  {
    StripOfIndented(name);
    StartsWithPrefix(name);
    SliceOfIndented(name);
  }

  lemma StripOfIndented(name: string)
    requires |name| > 0 && NoSpace(name)
    ensures Strip("  tool: " + name) == "tool: " + name
  {
    var stripped := "tool: " + name;
    ConcatAssoc("  ", "tool: ", name);
    assert "  " + "tool: " == "  tool: ";
    assert !IsSpace(stripped[0]);
    StripLeftOfSpaces("  ", stripped);
    assert stripped[|stripped| - 1] == name[|name| - 1];
    StripRightOfUnspaced(stripped);
  }

  lemma StartsWithPrefix(name: string)
    ensures StartsWith(Lower("tool: " + name), Prefix)
  {
    var stripped := "tool: " + name;
    assert stripped[..5] == Prefix;
    LowerPrefix(stripped, 5);
    LowerOfPrefix();
  }

  lemma SliceOfIndented(name: string)
    requires |name| > 0 && NoSpace(name)
    ensures CommandText("  tool: " + name) == "l: " + name
  {
    var cmd := "l: " + name;
    IndentedQuery(name);
    DropPrefixOfConcat("  too", cmd);
    ShiftedIsUnpadded(name);
  }

  lemma IndentedQuery(name: string)
    ensures "  tool: " + name == "  too" + ("l: " + name)
  {
    ConcatAssoc("  too", "l: ", name);
    assert "  too" + "l: " == "  tool: ";
  }

  lemma ShiftedIsUnpadded(name: string)
    requires |name| > 0 && NoSpace(name)
    ensures Strip("l: " + name) == "l: " + name
  {
    var cmd := "l: " + name;
    assert !IsSpace(cmd[0]);
    assert cmd[|cmd| - 1] == name[|name| - 1];
    StripOfUnpadded(cmd);
  }

  /** The prefix is already lower case. */
  lemma LowerOfPrefix()
    ensures Lower(Prefix) == Prefix
  {
    var l := Lower(Prefix);
    assert l[0] == 't' && l[1] == 'o' && l[2] == 'o' && l[3] == 'l' && l[4] == ':';
  }

  /** The command text `l: <name>` names the tool `l:` and binds nothing. */
  lemma ShiftedCommand(name: string)
    requires |name| > 0 && NoSpace(name) && '=' !in name
    ensures ParseCommand("l: " + name) == Success(Invocation("l:", []))
  {
    var cmd := "l: " + name;
    assert Tokens(cmd) == ["l:", name] by {
      assert NoSpace("l:");
      assert cmd == "l:" + " " + name;
      TokensOfPair("l:", name);
    }
    assert ["l:", name][1..] == [name];
    NoBindings(name);
  }

  /** A single token without `=` binds nothing. */
  lemma NoBindings(token: string)
    requires '=' !in token
    ensures ParseParams([token]) == []
  {
    var bs := Bindings([token]);
    assert bs[0] == None;
    assert bs[..0] == [];
    assert Assign(bs) == Assign(bs[..0]);
  }
}
