/**
 * The string side of the backend metadata store: the key of an upstream record,
 * `upstreams/<name>/<agent>:<port>`, the decimal rendering of the port that Go's
 * `%d` produces, Go's `strings.Split` on a one-character separator, and the
 * recovery of the agent name from a service identifier at deregistration time.
 */
module Upstream {
  import opened Wrappers

  /** The value written with every upstream record; the model treats it as opaque. */
  const UPSTREAM_VALUE: string := "{\"weight\":1, \"max_fails\":2, \"fail_timeout\":10}"

  const KEY_PREFIX: string := "upstreams/"

  predicate IsDigit(c: char) { '0' <= c <= '9' }

  predicate AllDigits(s: string) { forall i | 0 <= i < |s| :: IsDigit(s[i]) }

  function DigitChar(d: nat): (c: char)
    requires d < 10
    ensures IsDigit(c) && c as int - '0' as int == d
  {
    ('0' as int + d) as char
  }

  /** Decimal digits of a natural number, most significant first, no leading zero. */
  function Digits(n: nat): (r: string)
    ensures r != [] && AllDigits(r)
    ensures |r| > 1 ==> r[0] != '0'
    decreases n
  {
    if n < 10 then [DigitChar(n)] else Digits(n / 10) + [DigitChar(n % 10)]
  }

  /** The number a string of decimal digits denotes. */
  function DigitsValue(s: string): nat
    requires AllDigits(s)
  {
    if s == [] then 0
    else
      assert IsDigit(s[|s| - 1]);
      10 * DigitsValue(s[..|s| - 1]) + (s[|s| - 1] as int - '0' as int)
  }

  lemma NoSeparatorInDigits(s: string)
    requires AllDigits(s)
    ensures ':' !in s && '/' !in s && '-' !in s
  {
  }

  /** Go's `%d` applied to an `int`: a minus sign for negative numbers, then the digits. */
  function Itoa(n: int): (r: string)
    ensures r != [] && ':' !in r && '/' !in r
  {
    if n < 0 then
      NoSeparatorInDigits(Digits(-n));
      "-" + Digits(-n)
    else
      NoSeparatorInDigits(Digits(n));
      Digits(n)
  }

  /** Reads back an optional minus sign followed by at least one decimal digit. */
  function ParseInt(s: string): Option<int>
  {
    if s != [] && s[0] == '-' then
      if |s| > 1 && AllDigits(s[1..]) then
        var magnitude: int := DigitsValue(s[1..]);
        Some(-magnitude)
      else None
    else if s != [] && AllDigits(s) then Some(DigitsValue(s))
    else None
  }

  lemma {:induction false} DigitsRoundTrip(n: nat)
    ensures DigitsValue(Digits(n)) == n
    decreases n
  {
    if n >= 10 {
      var s := Digits(n);
      assert s[..|s| - 1] == Digits(n / 10);
      assert s[|s| - 1] == DigitChar(n % 10);
      DigitsRoundTrip(n / 10);
    }
  }

  /** The port rendering is read back exactly: no two ports share a rendering. */
  lemma ItoaRoundTrip(n: int)
    ensures ParseInt(Itoa(n)) == Some(n)
  {
    if n < 0 {
      var s := Itoa(n);
      assert s[1..] == Digits(-n);
      DigitsRoundTrip(-n);
    } else {
      var s := Itoa(n);
      assert IsDigit(s[0]);
      DigitsRoundTrip(n);
    }
  }

  /** The key of the upstream record for one (service name, agent, port) triple. */
  function UpstreamKey(name: string, agent: string, port: int): (key: string)
  {
    KEY_PREFIX + name + "/" + agent + ":" + Itoa(port)
  }

  lemma UpstreamKeyShape(name: string, agent: string, port: int)
    ensures UpstreamKey(name, agent, port) == KEY_PREFIX + (name + ['/'] + (agent + [':'] + Itoa(port)))
  {
  }

  /**
   * The layout of an upstream key: `upstreams/`, then the service name and `/`, then the
   * agent, then `:` and the port's rendering.
   */
  lemma UpstreamKeyLayout(name: string, agent: string, port: int)
    ensures var key := UpstreamKey(name, agent, port);
            && |key| == |KEY_PREFIX| + |name| + |agent| + |Itoa(port)| + 2
            && key[..|KEY_PREFIX|] == KEY_PREFIX
            && key[|KEY_PREFIX|..|KEY_PREFIX| + |name|] == name
            && key[|KEY_PREFIX| + |name|] == '/'
            && key[|KEY_PREFIX| + |name| + 1..|key| - |Itoa(port)| - 1] == agent
            && key[|key| - |Itoa(port)| - 1..] == [':'] + Itoa(port)
  {
    UpstreamKeyShape(name, agent, port);
  }

  lemma CommonPrefix(p: string, s1: string, s2: string)
    requires p + s1 == p + s2
    ensures s1 == s2
  {
    assert s1 == (p + s1)[|p|..];
  }

  /** A separator that occurs in neither left part splits both strings at the same place. */
  lemma SeparatorUnique(sep: char, a1: string, b1: string, a2: string, b2: string)
    requires sep !in a1 && sep !in a2
    requires a1 + [sep] + b1 == a2 + [sep] + b2
    ensures a1 == a2 && b1 == b2
  {
    var s := a1 + [sep] + b1;
    assert forall k | 0 <= k < |a1| :: s[k] == a1[k] && s[k] != sep;
    assert forall k | 0 <= k < |a2| :: s[k] == a2[k] && s[k] != sep;
    assert s[|a1|] == sep && s[|a2|] == sep;
    assert |a1| == |a2|;
    assert a1 == s[..|a1|] == a2;
    assert b1 == s[|a1| + 1..] == b2;
  }

  /**
   * One record per (name, agent, port) triple: distinct triples have distinct keys,
   * as long as names carry no `/` and agents no `:`.
   */
  lemma UpstreamKeyInjective(n1: string, a1: string, p1: int, n2: string, a2: string, p2: int)
    requires '/' !in n1 && '/' !in n2 && ':' !in a1 && ':' !in a2
    requires UpstreamKey(n1, a1, p1) == UpstreamKey(n2, a2, p2)
    ensures n1 == n2 && a1 == a2 && p1 == p2
  {
    var r1 := a1 + [':'] + Itoa(p1);
    var r2 := a2 + [':'] + Itoa(p2);
    UpstreamKeyShape(n1, a1, p1);
    UpstreamKeyShape(n2, a2, p2);
    CommonPrefix(KEY_PREFIX, n1 + ['/'] + r1, n2 + ['/'] + r2);
    SeparatorUnique('/', n1, r1, n2, r2);
    SeparatorUnique(':', a1, Itoa(p1), a2, Itoa(p2));
    ItoaRoundTrip(p1);
    ItoaRoundTrip(p2);
  }

  /** Go's `strings.Split(s, sep)` for a one-character separator: one more field than separators. */
  function Split(s: string, sep: char): (fields: seq<string>)
    ensures |fields| >= 1
    ensures forall i | 0 <= i < |fields| :: sep !in fields[i]
    ensures fields[0] <= s
  {
    if s == [] then [[]]
    else
      var rest := Split(s[1..], sep);
      if s[0] == sep then [[]] + rest else [[s[0]] + rest[0]] + rest[1..]
  }

  /** Go's `strings.Join(fields, sep)`. */
  function Join(fields: seq<string>, sep: char): string
    requires |fields| >= 1
  {
    if |fields| == 1 then fields[0] else fields[0] + [sep] + Join(fields[1..], sep)
  }

  lemma {:induction false} SplitJoin(s: string, sep: char)
    ensures Join(Split(s, sep), sep) == s
    decreases |s|
  {
    if s != [] {
      var rest := Split(s[1..], sep);
      SplitJoin(s[1..], sep);
      if s[0] == sep {
        assert ([[]] + rest)[1..] == rest;
      } else {
        var fields := [[s[0]] + rest[0]] + rest[1..];
        if |rest| > 1 {
          assert fields[1..] == rest[1..];
        }
      }
    }
  }

  lemma {:induction false} SplitWithoutSeparator(s: string, sep: char)
    requires sep !in s
    ensures Split(s, sep) == [s]
    decreases |s|
  {
    if s != [] {
      SplitWithoutSeparator(s[1..], sep);
      assert [s[0]] + s[1..] == s;
    }
  }

  /** A leading field free of the separator comes off first. */
  lemma {:induction false} SplitAfterField(a: string, sep: char, b: string)
    requires sep !in a
    ensures Split(a + [sep] + b, sep) == [a] + Split(b, sep)
    decreases |a|
  {
    if a == [] {
      assert (a + [sep] + b)[1..] == b;
    } else {
      SplitAfterField(a[1..], sep, b);
      assert (a + [sep] + b)[1..] == a[1..] + [sep] + b;
      assert [a[0]] + a[1..] == a;
    }
  }

  /** The first field of `a + b`, for `a` free of the separator, begins with the whole of `a`. */
  lemma {:induction false} SplitHeadConcat(a: string, b: string, sep: char)
    requires sep !in a
    ensures Split(a + b, sep)[0] == a + Split(b, sep)[0]
    decreases |a|
  {
    if a != [] {
      var s := a + b;
      assert s[0] == a[0] && s[0] != sep;
      assert s[1..] == a[1..] + b;
      SplitHeadConcat(a[1..], b, sep);
      assert Split(s, sep)[0] == [a[0]] + Split(s[1..], sep)[0];
      assert [a[0]] + a[1..] == a;
    } else {
      assert a + b == b;
    }
  }

  /** Splitting a join of separator-free fields gives the fields back. */
  lemma {:induction false} JoinSplit(fields: seq<string>, sep: char)
    requires |fields| >= 1
    requires forall i | 0 <= i < |fields| :: sep !in fields[i]
    ensures Split(Join(fields, sep), sep) == fields
    decreases |fields|
  {
    if |fields| == 1 {
      SplitWithoutSeparator(fields[0], sep);
    } else {
      JoinSplit(fields[1..], sep);
      SplitAfterField(fields[0], sep, Join(fields[1..], sep));
      assert [fields[0]] + fields[1..] == fields;
    }
  }

  /** `Split` yields a second field exactly when the separator occurs. */
  lemma {:induction false} SplitHasSecondField(s: string, sep: char)
    ensures |Split(s, sep)| >= 2 <==> sep in s
    decreases |s|
  {
    if s != [] {
      SplitHasSecondField(s[1..], sep);
      assert s == [s[0]] + s[1..];
      assert sep in s <==> s[0] == sep || sep in s[1..];
    }
  }

  /**
   * The agent name read back out of a service identifier: the second `:`-separated
   * field, cut at its first `-` when it holds one.
   */
  function AgentFromId(id: string): (agent: string)
    requires ':' in id
    ensures ':' !in agent && '-' !in agent
  {
    SplitHasSecondField(id, ':');
    var field := Split(id, ':')[1];
    if '-' in field then
      var head := Split(field, '-')[0];
      assert forall c | c in head :: c in field;
      head
    else field
  }

  /**
   * For an identifier `<prefix>:<agent><suffix>` whose agent holds neither `:` nor `-`
   * and whose suffix is empty or starts a new `:` or `-` field, the parse returns the agent.
   */
  lemma AgentFromComposite(prefix: string, agent: string, suffix: string)
    requires ':' !in prefix && ':' !in agent && '-' !in agent
    requires suffix == [] || suffix[0] == ':' || suffix[0] == '-'
    ensures ':' in prefix + [':'] + agent + suffix
    ensures AgentFromId(prefix + [':'] + agent + suffix) == agent
  {
    var id := prefix + [':'] + agent + suffix;
    assert id == prefix + [':'] + (agent + suffix);
    assert id[|prefix|] == ':';
    SplitAfterField(prefix, ':', agent + suffix);
    SplitHeadConcat(agent, suffix, ':');
    var field := Split(id, ':')[1];
    assert field == agent + Split(suffix, ':')[0];
    if suffix == [] {
      assert field == agent;
    } else if suffix[0] == ':' {
      assert Split(suffix, ':')[0] == [];
      assert field == agent;
    } else {
      var w := Split(suffix, ':')[0];
      assert w == [suffix[0]] + Split(suffix[1..], ':')[0];
      assert field[|agent|] == '-';
      SplitHeadConcat(agent, w, '-');
      assert Split(w, '-')[0] == [];
    }
  }

  /** A composite identifier: `web-1:agentA-3` names agent `agentA`. */
  lemma AgentFromExampleId()
    ensures ':' in "web-1:agentA-3"
    ensures AgentFromId("web-1:agentA-3") == "agentA"
  {
    assert "web-1:agentA-3" == "web-1" + [':'] + "agentA" + "-3";
    AgentFromComposite("web-1", "agentA", "-3");
  }

  /**
   * An agent name that itself holds a `-` is not recovered: the parse stops at the dash,
   * so the key removed at deregistration is not the key written at registration.
   */
  lemma DashedAgentNotRecovered(name: string, prefix: string, head: string, tail: string, suffix: string, port: int)
    requires '/' !in name && ':' !in prefix
    requires ':' !in head && '-' !in head && ':' !in tail
    requires suffix == [] || suffix[0] == ':'
    ensures ':' in prefix + [':'] + (head + ['-'] + tail) + suffix
    ensures AgentFromId(prefix + [':'] + (head + ['-'] + tail) + suffix) == head
    ensures UpstreamKey(name, head, port) != UpstreamKey(name, head + ['-'] + tail, port)
  {
    var agent := head + ['-'] + tail;
    var id := prefix + [':'] + agent + suffix;
    assert id == prefix + [':'] + (agent + suffix);
    assert id[|prefix|] == ':';
    SplitAfterField(prefix, ':', agent + suffix);
    SplitHeadConcat(agent, suffix, ':');
    var field := Split(id, ':')[1];
    if suffix == [] {
      assert Split(suffix, ':')[0] == [];
    } else {
      assert Split(suffix, ':')[0] == [];
    }
    assert field == agent;
    assert field[|head|] == '-';
    SplitAfterField(head, '-', tail);
    if UpstreamKey(name, head, port) == UpstreamKey(name, agent, port) {
      assert agent[|head|] == '-';
      assert ':' !in agent;
      UpstreamKeyInjective(name, head, port, name, agent, port);
      assert false;
    }
  }
}
