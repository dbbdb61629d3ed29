/** Replication states as header text (ParseReplicationState in api/client.go), and the string helpers they need. */
module StateText {
  import opened Basics
  import opened Strings

  // ---- Strings ----

  function Insert(x: string, s: seq<string>): seq<string> {
    if s == [] || Less(x, s[0]) then [x] + s
    else if x == s[0] then s
    else [s[0]] + Insert(x, s[1..])
  }

  lemma {:induction false} InsertAscending(x: string, s: seq<string>)
    requires Ascending(s)
    ensures Ascending(Insert(x, s)) && (forall y :: y in Insert(x, s) <==> y == x || y in s)
  {
    if s == [] {
    } else if Less(x, s[0]) {
      forall j | 0 < j < |s| ensures Less(x, s[j]) {
        LessTransitive(x, s[0], s[j]);
      }
    } else if x != s[0] {
      LessTotal(x, s[0]);
      InsertAscending(x, s[1..]);
      var rest := Insert(x, s[1..]);
      forall j | 0 <= j < |rest| ensures Less(s[0], rest[j]) {
        assert rest[j] in rest;
      }
      assert s == [s[0]] + s[1..];
    }
  }

  /** strutil.RemoveDuplicates: trimmed, without blanks, distinct and in ascending order. */
  function RemoveDuplicates(items: seq<string>): seq<string> {
    if items == [] then []
    else
      var x, rest := Trim(items[|items| - 1]), RemoveDuplicates(items[..|items| - 1]);
      if x == "" then rest else Insert(x, rest)
  }

  lemma {:induction false} RemoveDuplicatesMeans(items: seq<string>)
    ensures Ascending(RemoveDuplicates(items))
    ensures forall y :: y in RemoveDuplicates(items) <==> y != "" && exists i :: 0 <= i < |items| && y == Trim(items[i])
  {
    if items != [] {
      var n := |items| - 1;
      var front := items[..n];
      RemoveDuplicatesMeans(front);
      InsertAscending(Trim(items[n]), RemoveDuplicates(front));
      forall y ensures y in RemoveDuplicates(items) <==> y != "" && exists i :: 0 <= i < |items| && y == Trim(items[i]) {
        assert (exists i :: 0 <= i < |items| && y == Trim(items[i])) <==>
          y == Trim(items[n]) || exists i :: 0 <= i < |front| && y == Trim(front[i]);
      }
    }
  }

  // ---- Parsing ----

  function IndexOf(s: string, c: char): (r: Option<nat>)
    ensures r.None? <==> c !in s
    ensures r.Some? ==> r.value < |s| && s[r.value] == c && c !in s[..r.value]
  {
    if s == "" then None
    else if s[0] == c then Some(0)
    else
      var r := IndexOf(s[1..], c);
      assert s == [s[0]] + s[1..];
      if r.None? then None
      else
        assert s[..r.value + 1] == [s[0]] + s[1..][..r.value];
        Some(r.value + 1)
  }

  function LastIndexOf(s: string, c: char): (r: Option<nat>)
    ensures r.None? <==> c !in s
    ensures r.Some? ==> r.value < |s| && s[r.value] == c && c !in s[r.value + 1..]
  {
    if s == "" then None
    else if s[|s| - 1] == c then Some(|s| - 1)
    else
      var front := s[..|s| - 1];
      var r := LastIndexOf(front, c);
      assert s == front + [s[|s| - 1]];
      if r.Some? then assert s[r.value + 1..] == front[r.value + 1..] + [s[|s| - 1]]; r else r
  }

  function Split(s: string, c: char): (pieces: seq<string>)
    ensures pieces != [] && forall p :: p in pieces ==> c !in p
  {
    var i := IndexOf(s, c);
    if i.None? then [s] else [s[..i.value]] + Split(s[i.value + 1..], c)
  }

  function Join(pieces: seq<string>, c: char): string
    requires pieces != []
  {
    if |pieces| == 1 then pieces[0] else pieces[0] + [c] + Join(pieces[1..], c)
  }

  lemma {:induction false} JoinSplit(s: string, c: char)
    ensures Join(Split(s, c), c) == s
  {
    var i := IndexOf(s, c);
    if i.Some? {
      JoinSplit(s[i.value + 1..], c);
      assert s == s[..i.value] + [c] + s[i.value + 1..];
    }
  }

  lemma {:induction false} SplitJoin(pieces: seq<string>, c: char)
    requires pieces != [] && forall p :: p in pieces ==> c !in p
    ensures Split(Join(pieces, c), c) == pieces
  {
    var s := Join(pieces, c);
    var i := IndexOf(s, c);
    if |pieces| > 1 {
      SplitJoin(pieces[1..], c);
      assert s[|pieces[0]|] == c && c in s;
      assert forall j :: 0 <= j < |pieces[0]| ==> s[j] == pieces[0][j] && pieces[0][j] in pieces[0];
      assert i.value == |pieces[0]|;
      assert s[..i.value] == pieces[0] && s[i.value + 1..] == Join(pieces[1..], c);
      assert pieces == [pieces[0]] + pieces[1..];
    }
  }

  const TWO_TO_THE_64: nat := 0x1_0000_0000_0000_0000

  predicate AllDigits(s: string) {
    forall i :: 0 <= i < |s| ==> '0' <= s[i] <= '9'
  }

  function Value(s: string): nat
    requires AllDigits(s)
  {
    if s == "" then 0 else 10 * Value(s[..|s| - 1]) + (s[|s| - 1] as int - '0' as int)
  }

  function TenTo(n: nat): nat {
    if n == 0 then 1 else 10 * TenTo(n - 1)
  }

  lemma TenTimes(x: nat, y: nat)
    ensures 10 * (x * y) == x * (10 * y)
  {
  }

  /** Positional notation: digits in front count ten times as much for each digit that follows. */
  lemma {:induction false} ValueMeans(a: string, b: string)
    requires AllDigits(a) && AllDigits(b)
    ensures AllDigits(a + b) && Value(a + b) == Value(a) * TenTo(|b|) + Value(b)
    ensures |a| == 1 ==> Value(a) == a[0] as int - '0' as int
  {
    if b == "" {
      assert a + b == a;
    } else {
      var front := b[..|b| - 1];
      ValueMeans(a, front);
      assert (a + b)[..|a + b| - 1] == a + front;
      TenTimes(Value(a), TenTo(|front|));
    }
  }

  /** strconv.ParseUint in base 10 for 64 bits. */
  function ParseUint(s: string): Option<nat> {
    if s != "" && AllDigits(s) && Value(s) < TWO_TO_THE_64 then Some(Value(s)) else None
  }

  function Decimal(n: nat): (s: string)
    ensures s != "" && AllDigits(s) && Value(s) == n
  {
    var d := [('0' as int + n % 10) as char];
    if n < 10 then d
    else
      var front := Decimal(n / 10);
      assert (front + d)[..|front|] == front;
      front + d
  }

  datatype WalState = WalState(cluster: string, local: nat, replicated: nat)

  /** Decoding of base64 and of hexadecimal, and the keyed hash of a state. */
  datatype Codec = Codec(base64: string -> Option<string>, hex: string -> Option<string>, hmac: (string, string) -> string)

  function ParseState(state: string): Option<WalState> {
    var pieces := Split(state, ':');
    if |pieces| != 4 || pieces[0] != "v1" || pieces[1] == "" then None
    else
      var local, replicated := ParseUint(pieces[2]), ParseUint(pieces[3]);
      if local.None? || replicated.None? then None else Some(WalState(pieces[1], local.value, replicated.value))
  }

  /** ParseReplicationState; the keyed hash is compared only when a key is given. */
  function Parse(c: Codec, raw: string, key: string): Option<WalState> {
    var cooked := c.base64(raw);
    if cooked.None? then None
    else
      var last := LastIndexOf(cooked.value, ':');
      if last.None? then None
      else
        var state, mac := cooked.value[..last.value], c.hex(cooked.value[last.value + 1..]);
        if mac.None? || (key != "" && c.hmac(key, state) != mac.value) then None else ParseState(state)
  }

  /** v1:<cluster>:<local>:<replicated> */
  function StateForm(cluster: string, local: string, replicated: string): string {
    Join(["v1", cluster, local, replicated], ':')
  }

  function TextOf(w: WalState): string {
    StateForm(w.cluster, Decimal(w.local), Decimal(w.replicated))
  }

  lemma TextParses(w: WalState)
    requires w.cluster != "" && ':' !in w.cluster && w.local < TWO_TO_THE_64 && w.replicated < TWO_TO_THE_64
    ensures ParseState(TextOf(w)) == Some(w)
  {
    hide Join, Split;
    assert forall s: string :: AllDigits(s) ==> ':' !in s;
    SplitJoin(["v1", w.cluster, Decimal(w.local), Decimal(w.replicated)], ':');
  }

  lemma {:induction false} LastColon(state: string, mac: string)
    requires ':' !in mac
    ensures LastIndexOf(state + ":" + mac, ':') == Some(|state|)
  {
    var s := state + ":" + mac;
    if mac != "" {
      LastColon(state, mac[..|mac| - 1]);
      assert s[..|s| - 1] == state + ":" + mac[..|mac| - 1];
    }
  }

  /** Every state reads back from its text. */
  lemma ParseInverse(c: Codec, raw: string, key: string, w: WalState, mac: string)
    requires w.cluster != "" && ':' !in w.cluster && w.local < TWO_TO_THE_64 && w.replicated < TWO_TO_THE_64
    requires c.base64(raw) == Some(TextOf(w) + ":" + mac) && ':' !in mac
    requires c.hex(mac).Some? && (key == "" || c.hex(mac).value == c.hmac(key, TextOf(w)))
    ensures Parse(c, raw, key) == Some(w)
  {
    hide TextOf, ParseState;
    TextParses(w);
    var state := TextOf(w);
    LastColon(state, mac);
    var s := state + ":" + mac;
    assert s[..|state|] == state && s[|state| + 1..] == mac;
  }

  /** Only such texts are read, up to the spelling of the two indices. */
  lemma ParseForm(c: Codec, raw: string, key: string) returns (local: string, replicated: string, mac: string)
    requires Parse(c, raw, key).Some?
    ensures var w := Parse(c, raw, key).value; var state := StateForm(w.cluster, local, replicated);
      && c.base64(raw) == Some(state + ":" + mac) && w.cluster != "" && ':' !in w.cluster
      && c.hex(mac).Some? && (key != "" ==> c.hex(mac).value == c.hmac(key, state))
      && ParseUint(local) == Some(w.local) && ParseUint(replicated) == Some(w.replicated)
  {
    hide Join, ParseUint;
    var s := c.base64(raw).value;
    var last := LastIndexOf(s, ':').value;
    var state := s[..last];
    mac := s[last + 1..];
    assert s == state + ":" + mac;
    var pieces := Split(state, ':');
    JoinSplit(state, ':');
    local, replicated := pieces[2], pieces[3];
    assert pieces == ["v1", pieces[1], local, replicated];
  }
}
