/** The keys of account/account.go and account/execaccount.go: one namespace per asset, and the range of
    keys with a common prefix. */
module LedgerKeys {
  import opened Lexicographic

  function SymbolPrefix(execer: string, symbol: string): string {
    "mavl-" + execer + "-" + symbol + "-"
  }

  function AccountKey(execer: string, symbol: string, addr: string): string {
    SymbolPrefix(execer, symbol) + addr
  }

  function ExecAccountKey(execer: string, symbol: string, addr: string, execaddr: string): string {
    SymbolPrefix(execer, symbol) + "exec-" + execaddr + ":" + addr
  }

  ghost predicate Free(s: string, c: char) {
    c !in s
  }

  /** The names NewAccountDB accepts. */
  ghost predicate Asset(execer: string, symbol: string) {
    Free(execer, '-') && Free(symbol, '-')
  }

  /** A separator that does not occur before it can be found again. */
  lemma Split(a: string, x: string, b: string, y: string, c: char)
    requires Free(a, c) && Free(b, c) && a + [c] + x == b + [c] + y
    ensures a == b && x == y
  {
    var s := a + [c] + x;
    assert s[|a|] == c && s[|b|] == c;
    assert forall i | 0 <= i < |a| :: s[i] == a[i];
    assert forall i | 0 <= i < |b| :: s[i] == b[i];
    assert a == s[..|a|] && b == s[..|b|];
    assert x == s[|a| + 1..] && y == s[|b| + 1..];
  }

  /** Keys of different assets differ; within one asset the rest of the key is determined. */
  lemma AssetOf(execer: string, symbol: string, x: string, execer': string, symbol': string, y: string)
    requires Asset(execer, symbol) && Asset(execer', symbol')
    requires SymbolPrefix(execer, symbol) + x == SymbolPrefix(execer', symbol') + y
    ensures execer == execer' && symbol == symbol' && x == y
  {
    var p, q := symbol + "-" + x, symbol' + "-" + y;
    assert SymbolPrefix(execer, symbol) + x == "mavl" + "-" + (execer + "-" + p);
    assert SymbolPrefix(execer', symbol') + y == "mavl" + "-" + (execer' + "-" + q);
    Split("mavl", execer + "-" + p, "mavl", execer' + "-" + q, '-');
    Split(execer, p, execer', q, '-');
    Split(symbol, x, symbol', y, '-');
  }

  lemma AccountKeyInjective(execer: string, symbol: string, addr: string, execer': string, symbol': string,
                            addr': string)
    requires Asset(execer, symbol) && Asset(execer', symbol')
    requires AccountKey(execer, symbol, addr) == AccountKey(execer', symbol', addr')
    ensures execer == execer' && symbol == symbol' && addr == addr'
  {
    AssetOf(execer, symbol, addr, execer', symbol', addr');
  }

  lemma ExecKeyIs(execer: string, symbol: string, addr: string, execaddr: string)
    ensures ExecAccountKey(execer, symbol, addr, execaddr) ==
            SymbolPrefix(execer, symbol) + ("exec-" + (execaddr + ":" + addr))
  {
    hide SymbolPrefix;
  }

  /** Exec-account keys are equal when asset, contract address and address are, read as one string. */
  lemma ExecKeysEqual(execer: string, symbol: string, addr: string, execaddr: string,
                      execer': string, symbol': string, addr': string, execaddr': string)
    requires Asset(execer, symbol) && Asset(execer', symbol')
    ensures ExecAccountKey(execer, symbol, addr, execaddr) == ExecAccountKey(execer', symbol', addr', execaddr') <==>
            execer == execer' && symbol == symbol' && execaddr + ":" + addr == execaddr' + ":" + addr'
  {
    var x, y := execaddr + ":" + addr, execaddr' + ":" + addr';
    ExecKeyIs(execer, symbol, addr, execaddr);
    ExecKeyIs(execer', symbol', addr', execaddr');
    if ExecAccountKey(execer, symbol, addr, execaddr) == ExecAccountKey(execer', symbol', addr', execaddr') {
      AssetOf(execer, symbol, "exec-" + x, execer', symbol', "exec-" + y);
      assert x == ("exec-" + x)[5..] && y == ("exec-" + y)[5..];
    }
  }

  /** Strings that continue in the same way after two different heads: one head goes on with a colon
      into the other. */
  lemma HeadsNest(e: string, a: string, e': string, a': string)
    requires e + ":" + a == e' + ":" + a' && e != e' && |e| <= |e'|
    ensures e + ":" <= e'
  {
    var s := e + ":" + a;
    assert s[..|e|] == e && s[..|e'|] == e' && s[|e|] == ':';
    assert |e| < |e'|;
    assert e'[..|e| + 1] == s[..|e| + 1] == e + ":";
  }

  /** Two contract addresses can share the key of an account exactly when one of them extends the other
      behind a colon. */
  lemma ClashIff(execer: string, symbol: string, e: string, e': string)
    requires Asset(execer, symbol) && e != e'
    ensures (exists a, a' :: ExecAccountKey(execer, symbol, a, e) == ExecAccountKey(execer, symbol, a', e')) <==>
            e + ":" <= e' || e' + ":" <= e
  {
    if a, a' :| ExecAccountKey(execer, symbol, a, e) == ExecAccountKey(execer, symbol, a', e') {
      ExecKeysEqual(execer, symbol, a, e, execer, symbol, a', e');
      if |e| <= |e'| {
        HeadsNest(e, a, e', a');
      } else {
        HeadsNest(e', a', e, a);
      }
    }
    if e + ":" <= e' {
      Clash(execer, symbol, e, e');
    }
    if e' + ":" <= e {
      Clash(execer, symbol, e', e);
    }
  }

  /** The accounts that share a key when `e'` extends `e` behind a colon. */
  lemma Clash(execer: string, symbol: string, e: string, e': string)
    requires Asset(execer, symbol) && e + ":" <= e'
    ensures ExecAccountKey(execer, symbol, e'[|e| + 1..] + ":", e) == ExecAccountKey(execer, symbol, "", e')
  {
    var a := e'[|e| + 1..] + ":";
    assert e' == e + ":" + e'[|e| + 1..];
    assert e + ":" + a == e' + ":" + "";
    ExecKeysEqual(execer, symbol, a, e, execer, symbol, "", e');
  }

  lemma ColonClash()
    ensures ExecAccountKey("coins", "bty", "c", "a:b") == ExecAccountKey("coins", "bty", "b:c", "a")
  {
    assert "a:b" + ":" + "c" == "a" + ":" + "b:c";
    ExecKeysEqual("coins", "bty", "c", "a:b", "coins", "bty", "b:c", "a");
  }

  /** So the keys of contract addresses without a colon determine everything. */
  lemma ExecAccountKeyInjective(execer: string, symbol: string, addr: string, execaddr: string,
                                execer': string, symbol': string, addr': string, execaddr': string)
    requires Asset(execer, symbol) && Asset(execer', symbol') && Free(execaddr, ':') && Free(execaddr', ':')
    requires ExecAccountKey(execer, symbol, addr, execaddr) == ExecAccountKey(execer', symbol', addr', execaddr')
    ensures execer == execer' && symbol == symbol' && addr == addr' && execaddr == execaddr'
  {
    ExecKeysEqual(execer, symbol, addr, execaddr, execer', symbol', addr', execaddr');
    Split(execaddr, addr, execaddr', addr', ':');
  }

  /** No account key is an exec-account key, whatever the assets. */
  lemma FamiliesApart(execer: string, symbol: string, addr: string,
                      execer': string, symbol': string, addr': string, execaddr': string)
    requires Asset(execer, symbol) && Asset(execer', symbol') && Free(addr, '-')
    ensures AccountKey(execer, symbol, addr) != ExecAccountKey(execer', symbol', addr', execaddr')
  {
    var y := "exec-" + execaddr' + ":" + addr';
    assert y[4] == '-' && y[4] in y;
    assert ExecAccountKey(execer', symbol', addr', execaddr') == SymbolPrefix(execer', symbol') + y;
    if AccountKey(execer, symbol, addr) == ExecAccountKey(execer', symbol', addr', execaddr') {
      AssetOf(execer, symbol, addr, execer', symbol', y);
    }
  }

  /** An account key is also an exec-account key exactly when the address itself reads as one. */
  lemma FamiliesMeet(execer: string, symbol: string, addr: string)
    requires Asset(execer, symbol)
    ensures (exists a, e :: AccountKey(execer, symbol, addr) == ExecAccountKey(execer, symbol, a, e)) <==>
            "exec-" <= addr && ':' in addr[5..]
  {
    hide SymbolPrefix, ExecAccountKey;
    if a, e :| AccountKey(execer, symbol, addr) == ExecAccountKey(execer, symbol, a, e) {
      ExecKeyIs(execer, symbol, a, e);
      AssetOf(execer, symbol, addr, execer, symbol, "exec-" + (e + ":" + a));
      assert addr[5..][|e|] == ':';
    }
    if "exec-" <= addr && ':' in addr[5..] {
      var i :| 5 <= i < |addr| && addr[i] == ':';
      var e, a := addr[5..i], addr[i + 1..];
      ExecKeyIs(execer, symbol, a, e);
      assert addr == "exec-" + (e + ":" + a);
    }
  }

  // Prefix ranges.

  type Byte = x: int | 0 <= x <= 0xff

  ghost predicate InRange(key: seq<Byte>, low: seq<Byte>, high: seq<Byte>) {
    !Less(key, low) && Less(key, high)
  }

  /** `edge` is the prefix with its last byte below 0xff incremented; the 0xff bytes behind it stay. */
  ghost predicate IsEdge(prefix: seq<Byte>, edge: seq<Byte>) {
    if exists i :: 0 <= i < |prefix| && prefix[i] < 0xff then
      exists i :: 0 <= i < |prefix| && prefix[i] < 0xff && (forall j | i < j < |prefix| :: prefix[j] == 0xff)
                  && edge == prefix[i := prefix[i] + 1]
    else edge == prefix
  }

  method GenPrefixEdge(prefix: seq<Byte>) returns (r: seq<Byte>)
    ensures IsEdge(prefix, r)
  {
    r := [];
    for j := 0 to |prefix|
      invariant r == prefix[..j]
    {
      r := r + [prefix[j]];
    }
    assert r == prefix;
    var i := |prefix| - 1;
    while i >= 0
      invariant -1 <= i < |prefix| && r == prefix
      invariant forall j | i < j < |prefix| :: prefix[j] == 0xff
    {
      if r[i] < 0xff {
        r := r[i := r[i] + 1];
        return;
      }
      i := i - 1;
    }
  }

  lemma PrefixBelowEdge(prefix: seq<Byte>, edge: seq<Byte>, key: seq<Byte>, i: nat)
    requires i < |prefix| && prefix[i] < 0xff && edge == prefix[i := prefix[i] + 1] && prefix <= key
    ensures InRange(key, prefix, edge)
  {
    PrefixNotLess(key, prefix);
    assert key[..i] == prefix[..i] == edge[..i];
    LessAt(key, edge, i);
  }

  /** The range holds all keys with the prefix exactly when some byte can be incremented. */
  lemma RangeCovers(prefix: seq<Byte>, edge: seq<Byte>)
    requires IsEdge(prefix, edge)
    ensures (forall key: seq<Byte> | prefix <= key :: InRange(key, prefix, edge)) <==>
            exists i :: 0 <= i < |prefix| && prefix[i] < 0xff
  {
    if exists i :: 0 <= i < |prefix| && prefix[i] < 0xff {
      var i :| 0 <= i < |prefix| && prefix[i] < 0xff && edge == prefix[i := prefix[i] + 1];
      forall key: seq<Byte> | prefix <= key
        ensures InRange(key, prefix, edge)
      {
        PrefixBelowEdge(prefix, edge, key, i);
      }
    } else {
      PrefixNotLess(prefix, prefix);
      assert prefix <= prefix && !InRange(prefix, prefix, edge);
    }
  }

  /** Between a prefix and its increment in the last byte there are only keys with the prefix. */
  lemma {:induction false} OnlyPrefixed(prefix: seq<Byte>, edge: seq<Byte>, key: seq<Byte>)
    requires prefix != [] && prefix[|prefix| - 1] < 0xff
    requires edge == prefix[|prefix| - 1 := prefix[|prefix| - 1] + 1] && InRange(key, prefix, edge)
    ensures prefix <= key
    decreases |prefix|
  {
    if |prefix| > 1 {
      assert edge[1..] == prefix[1..][|prefix| - 2 := prefix[|prefix| - 1] + 1];
      OnlyPrefixed(prefix[1..], edge[1..], key[1..]);
    } else {
      assert edge[1..] == [] && !Less(key[1..], edge[1..]);
      assert prefix[1..] == [] && !Less(key[1..], prefix[1..]);
      assert key[0] == prefix[0];
    }
  }

  /** The range holds exactly the keys with the prefix when, and only when, its last byte is below
      0xff. */
  lemma RangeExact(prefix: seq<Byte>, edge: seq<Byte>)
    requires IsEdge(prefix, edge)
    ensures (forall key: seq<Byte> :: InRange(key, prefix, edge) <==> prefix <= key) <==>
            prefix != [] && prefix[|prefix| - 1] < 0xff
  {
    var n := |prefix|;
    RangeCovers(prefix, edge);
    if prefix != [] && prefix[n - 1] < 0xff {
      forall key: seq<Byte> | InRange(key, prefix, edge)
        ensures prefix <= key
      {
        OnlyPrefixed(prefix, edge, key);
      }
    } else if exists i :: 0 <= i < n && prefix[i] < 0xff {
      var i :| 0 <= i < n && prefix[i] < 0xff && (forall j | i < j < n :: prefix[j] == 0xff)
               && edge == prefix[i := prefix[i] + 1];
      var key := edge[..i + 1];
      LessAt(prefix, key, i);
      StrictPrefix(key, edge);
      assert InRange(key, prefix, edge) && !(prefix <= key);
    }
  }
}
