/** The account ledger and its incremental snapshot (`account/account.go`). Balances are decimal
    strings in a key-value store; the snapshot is kept up to date by a cache of differences. */
module Ledger {
  import opened Options

  // ----- decimal numbers -------------------------------------------------------------------------

  function Digits(n: nat): (s: string)
    ensures s != []
  {
    if n < 10 then [('0' as int + n) as char] else Digits(n / 10) + [('0' as int + n % 10) as char]
  }

  function Itoa(n: int): string {
    if n < 0 then "-" + Digits(-n) else Digits(n)
  }

  function ParseDigits(s: string): Option<nat> {
    if s == [] then Some(0)
    else
      var c := s[|s| - 1];
      var rest := ParseDigits(s[..|s| - 1]);
      if rest.None? || c < '0' || c > '9' then None else Some(rest.value * 10 + (c as int - '0' as int))
  }

  /** An optional sign and at least one digit. */
  function Atoi(s: string): Option<int> {
    if s == [] then None
    else if s[0] == '-' || s[0] == '+' then
      var n: Option<int> := ParseDigits(s[1..]);
      if |s| == 1 || n.None? then None else Some(if s[0] == '-' then -n.value else n.value)
    else if ParseDigits(s).None? then None
    else Some(ParseDigits(s).value)
  }

  lemma {:induction false} DigitsParse(n: nat)
    ensures ParseDigits(Digits(n)) == Some(n)
    ensures forall i :: 0 <= i < |Digits(n)| ==> '0' <= Digits(n)[i] <= '9'
  {
    if n >= 10 {
      DigitsParse(n / 10);
      var last := ('0' as int + n % 10) as char;
      assert (Digits(n / 10) + [last])[..|Digits(n / 10)|] == Digits(n / 10);
    } else {
      var c := ('0' as int + n) as char;
      assert [c][..0] == [];
      assert ParseDigits([]) == Some(0);
    }
  }

  lemma ItoaRoundTrip(n: int)
    ensures Atoi(Itoa(n)) == Some(n)
    ensures '_' !in Itoa(n)
  {
    if n < 0 {
      DigitsParse(-n);
      assert ("-" + Digits(-n))[1..] == Digits(-n);
    } else {
      DigitsParse(n);
    }
  }

  /** A stored value as a number; anything unreadable, or nothing, is zero. */
  function ToDigit(s: string): int {
    if Atoi(s).Some? then Atoi(s).value else 0
  }

  function Value(m: map<string, string>, a: string): int {
    ToDigit(if a in m then m[a] else "")
  }

  // ----- parsing ---------------------------------------------------------------------------------

  datatype TxArg = TxArg(kind: string, content: string, operate: int)

  datatype AccountLog = AccountLog(kind: string, from: string, to: string, amount: int, time: string, operate: int)

  function Split(s: string): (r: seq<string>)
    ensures r != []
  {
    if s == [] then [[]]
    else if s[0] == '_' then [[]] + Split(s[1..])
    else
      var r := Split(s[1..]);
      [[s[0]] + r[0]] + r[1..]
  }

  /** Only a plain transaction carries a transfer; of any other kind just the kind is kept. */
  function ParseTx(arg: Option<TxArg>): Option<AccountLog> {
    if arg.None? then None
    else if arg.value.kind != "tx" then Some(AccountLog(arg.value.kind, "", "", 0, "", 0))
    else
      var args := Split(arg.value.content);
      if |args| != 4 then None
      else if Atoi(args[2]).None? then None
      else Some(AccountLog("tx", args[0], args[1], Atoi(args[2]).value, args[3], arg.value.operate))
  }

  function Format(from: string, to: string, amount: int, time: string): string {
    from + ("_" + (to + ("_" + (Itoa(amount) + ("_" + time)))))
  }

  lemma {:induction false} SplitField(field: string, rest: string)
    requires '_' !in field
    ensures Split(field + ("_" + rest)) == [field] + Split(rest)
  {
    if field == [] {
      assert field + ("_" + rest) == "_" + rest;
      assert ("_" + rest)[1..] == rest;
    } else {
      SplitField(field[1..], rest);
      assert (field + ("_" + rest))[1..] == field[1..] + ("_" + rest);
      assert [field[0]] + field[1..] == field;
    }
  }

  lemma {:induction false} SplitLast(field: string)
    requires '_' !in field
    ensures Split(field) == [field]
  {
    if field != [] {
      SplitLast(field[1..]);
      assert [field[0]] + field[1..] == field;
    }
  }

  /** A formatted transfer parses back to itself. */
  lemma ParseRoundTrip(from: string, to: string, amount: int, time: string, operate: int)
    requires '_' !in from && '_' !in to && '_' !in time
    ensures ParseTx(Some(TxArg("tx", Format(from, to, amount, time), operate)))
            == Some(AccountLog("tx", from, to, amount, time, operate))
  {
    ItoaRoundTrip(amount);
    SplitField(from, to + ("_" + (Itoa(amount) + ("_" + time))));
    SplitField(to, Itoa(amount) + ("_" + time));
    SplitField(Itoa(amount), time);
    SplitLast(time);
  }

  /** Fields separated by underscores, put back together. */
  function JoinFields(fields: seq<string>): string {
    if fields == [] then [] else if |fields| == 1 then fields[0] else fields[0] + ("_" + JoinFields(fields[1..]))
  }

  lemma {:induction false} SplitExactly(s: string)
    ensures JoinFields(Split(s)) == s && forall i :: 0 <= i < |Split(s)| ==> '_' !in Split(s)[i]
  {
    if s != [] {
      SplitExactly(s[1..]);
      var r := Split(s[1..]);
      if s[0] == '_' {
        assert Split(s)[1..] == r;
      } else {
        assert Split(s)[1..] == r[1..];
        assert s == [s[0]] + s[1..];
        if |r| > 1 {
          assert [s[0]] + (r[0] + ("_" + JoinFields(r[1..]))) == ([s[0]] + r[0]) + ("_" + JoinFields(r[1..]));
        }
      }
    }
  }

  /** A plain transaction parses exactly when it is four fields, none with an underscore, of which the third
      is a number; and then to those fields. */
  lemma ParsesExactly(content: string, operate: int, from: string, to: string, amount: int, time: string)
    ensures var parsed := ParseTx(Some(TxArg("tx", content, operate)));
            parsed == Some(AccountLog("tx", from, to, amount, time, operate)) <==>
            exists number: string ::
              && content == JoinFields([from, to, number, time]) && Atoi(number) == Some(amount)
              && '_' !in from && '_' !in to && '_' !in number && '_' !in time
  {
    hide Atoi;
    SplitExactly(content);
    var parsed := ParseTx(Some(TxArg("tx", content, operate)));
    if parsed == Some(AccountLog("tx", from, to, amount, time, operate)) {
      assert Split(content) == [from, to, Split(content)[2], time];
    }
    if number: string :|
         && content == JoinFields([from, to, number, time]) && Atoi(number) == Some(amount)
         && '_' !in from && '_' !in to && '_' !in number && '_' !in time
    {
      SplitJoined(from, to, number, time);
    }
  }

  lemma SplitJoined(a: string, b: string, c: string, d: string)
    requires '_' !in a && '_' !in b && '_' !in c && '_' !in d
    ensures Split(JoinFields([a, b, c, d])) == [a, b, c, d]
  {
    hide Split;
    assert JoinFields([d]) == d;
    assert JoinFields([c, d]) == c + ("_" + d) by { assert [c, d][1..] == [d]; }
    assert JoinFields([b, c, d]) == b + ("_" + (c + ("_" + d))) by { assert [b, c, d][1..] == [c, d]; }
    assert JoinFields([a, b, c, d]) == a + ("_" + (b + ("_" + (c + ("_" + d))))) by { assert [a, b, c, d][1..] == [b, c, d]; }
    SplitField(a, b + ("_" + (c + ("_" + d))));
    SplitField(b, c + ("_" + d));
    SplitField(c, d);
    SplitLast(d);
  }

  predicate AllDigits(s: string) {
    forall i :: 0 <= i < |s| ==> '0' <= s[i] <= '9'
  }

  lemma {:induction false} ParseDigitsExactly(s: string)
    ensures ParseDigits(s).Some? <==> AllDigits(s)
  {
    if s != [] {
      ParseDigitsExactly(s[..|s| - 1]);
    }
  }

  /** A number is digits, at least one, with or without a sign in front, which negates or does nothing. */
  lemma AtoiExactly(s: string)
    ensures var signed := s != [] && s[0] in {'-', '+'};
            var digits := if signed then s[1..] else s;
            && (Atoi(s).Some? <==> digits != [] && AllDigits(digits))
            && (Atoi(s).Some? ==> ParseDigits(digits).Some? && Atoi(s).value == (if s[0] == '-' then -1 else 1) * ParseDigits(digits).value)
  {
    ParseDigitsExactly(s);
    if s != [] {
      ParseDigitsExactly(s[1..]);
    }
  }

  // ----- the ledger ------------------------------------------------------------------------------

  datatype Books = Books(db: map<string, string>, content: map<string, string>, cache: map<string, int>)

  function Balance(b: Books, a: string): int {
    Value(b.db, a)
  }

  function Cached(b: Books, a: string): int {
    if a in b.cache then b.cache[a] else 0
  }

  function SetBalance(b: Books, a: string, n: int): Books {
    b.(db := b.db[a := Itoa(n)])
  }

  function Debit(b: Books, log: AccountLog): Books {
    if (log.kind != "relaytx" || log.operate == 0) && log.from != ""
    then SetBalance(b, log.from, Balance(b, log.from) - log.amount)
    else b
  }

  function Credit(b: Books, log: AccountLog): Books {
    if log.kind != "relaytx" || log.operate == 1
    then SetBalance(b, log.to, if log.from != "" then Balance(b, log.to) + log.amount else log.amount)
    else b
  }

  function Cache1(b: Books, a: string, delta: int): Books {
    if a == "" then b else b.(cache := b.cache[a := Cached(b, a) + delta])
  }

  function Save(b: Books, log: AccountLog): Books {
    if log.kind == "checkpoint" || log.kind == "addtx" then b
    else Cache1(Cache1(Credit(Debit(b, log), log), log.from, -log.amount), log.to, log.amount)
  }

  /** Differences merged into the snapshot, the cache emptied. */
  function Merged(b: Books): map<string, string> {
    map a | a in b.content.Keys + b.cache.Keys ::
      if a in b.cache then Itoa(Value(b.content, a) + b.cache[a]) else b.content[a]
  }

  function Snapshot(b: Books): Books {
    Books(b.db, Merged(b), map[])
  }

  class AccountBook {
    var books: Books

    constructor ()
      ensures books == Books(map[], map[], map[])
    {
      books := Books(map[], map[], map[]);
    }

    method SetSnapshotCache(a: string, amount: int, incr: bool)
      modifies this
      ensures forall x :: Cached(books, x) == Cached(old(books), x) + (if x != a || a == "" then 0 else if incr then amount else -amount)
      ensures books == old(books).(cache := books.cache)
      ensures books == Cache1(old(books), a, if incr then amount else -amount)
    {
      if a == "" {
        return;
      }
      var old' := if a in books.cache then books.cache[a] else 0;
      if incr {
        books := books.(cache := books.cache[a := old' + amount]);
      } else {
        books := books.(cache := books.cache[a := old' - amount]);
      }
    }

    method SaveLog(log: AccountLog)
      modifies this
      ensures old(Agrees(books)) && Parsed(log) ==> (Agrees(books) <==> Harmless(old(books), log))
      ensures books == Save(old(books), log)
    {
      hide Value, Itoa, Agrees;
      if Agrees(books) && Parsed(log) {
        AgreementKeptExactlyWhen(books, log);
      }
      if log.kind == "checkpoint" || log.kind == "addtx" {
        return;
      }
      if log.kind != "relaytx" || log.operate == 0 {
        if |log.from| != 0 {
          var balance := Balance(books, log.from);
          books := books.(db := books.db[log.from := Itoa(balance - log.amount)]);
        }
      }
      if log.kind != "relaytx" || log.operate == 1 {
        var balance := log.amount;
        if |log.from| != 0 {
          balance := Balance(books, log.to) + log.amount;
        }
        books := books.(db := books.db[log.to := Itoa(balance)]);
      }
      SetSnapshotCache(log.from, log.amount, false);
      SetSnapshotCache(log.to, log.amount, true);
    }

    /** Adds every cached difference to the snapshot's value. */
    static method MergeCache(was: map<string, string>, cache: map<string, int>) returns (content: map<string, string>)
      ensures content.Keys == was.Keys + cache.Keys
      ensures forall a :: a in content ==> content[a] == if a in cache then Itoa(Value(was, a) + cache[a]) else was[a]
    {
      hide Value, Itoa;
      content := was;
      var todo := cache.Keys;
      while todo != {}
        invariant todo <= cache.Keys
        invariant content.Keys == was.Keys + (cache.Keys - todo)
        invariant forall a :: a in content && a in cache && a !in todo ==> content[a] == Itoa(Value(was, a) + cache[a])
        invariant forall a :: a in content && (a !in cache || a in todo) ==> content[a] == was[a]
        decreases todo
      {
        var a :| a in todo;
        ValueSame(was, content, a);
        content := content[a := Itoa(Value(content, a) + cache[a])];
        todo := todo - {a};
      }
    }

    method GenerateSnapshotFast()
      modifies this
      ensures old(Agrees(books)) ==> Agrees(books) && forall a :: Value(books.content, a) == Balance(books, a)
      ensures books == Snapshot(old(books))
    {
      hide Value, Itoa, Agrees;
      if Agrees(books) {
        forall a: string
          ensures Agrees(Snapshot(books)) && Value(Snapshot(books).content, a) == Balance(Snapshot(books), a)
        {
          MergeMakesLedger(books, a);
        }
        MergeMakesLedger(books, "");
      }
      var cache := books.cache;
      books := books.(cache := map[]);
      var content := MergeCache(books.content, cache);
      assert content == Merged(old(books));
      books := books.(content := content);
    }
  }

  lemma ValueSame(m: map<string, string>, n: map<string, string>, a: string)
    requires (a in m <==> a in n) && (a in m ==> m[a] == n[a])
    ensures Value(m, a) == Value(n, a)
  {
  }

  // ----- snapshot and ledger ---------------------------------------------------------------------

  predicate AgreesAt(b: Books, a: string) {
    Value(b.content, a) + Cached(b, a) == Balance(b, a)
  }

  /** Snapshot plus pending differences is the ledger, account by account. */
  ghost predicate Agrees(b: Books) {
    forall a :: AgreesAt(b, a)
  }

  /** A log as parsing produces it: a transfer, or just a kind. */
  predicate Parsed(log: AccountLog) {
    log.kind == "tx" || (log.from == "" && log.to == "" && log.amount == 0 && log.operate == 0)
  }

  lemma ParseGivesParsed(arg: Option<TxArg>)
    ensures ParseTx(arg).Some? ==> Parsed(ParseTx(arg).value)
  {
  }

  /** What a caller can check beforehand: a transfer names its recipient or moves nothing, and a mint
      meets an account holding nothing (the nameless one: just that amount). */
  predicate Harmless(b: Books, log: AccountLog) {
    if log.kind == "checkpoint" || log.kind == "addtx" || log.kind == "relaytx" then true
    else if log.from != "" then log.to != "" || log.amount == 0
    else if log.to != "" then Balance(b, log.to) == 0
    else Balance(b, "") == log.amount
  }

  lemma ValueSet(m: map<string, string>, a: string, n: int, x: string)
    ensures Value(m[a := Itoa(n)], x) == if x == a then n else Value(m, x)
  {
    ItoaRoundTrip(n);
  }

  /** The balances and differences after a save. */
  lemma SaveEffect(b: Books, log: AccountLog, a: string)
    requires Parsed(log) && log.kind != "checkpoint" && log.kind != "addtx" && log.kind != "relaytx"
    ensures var c := Save(b, log);
            && c.content == b.content
            && Cached(c, a) == Cached(b, a) - (if a == log.from && a != "" then log.amount else 0)
                               + (if a == log.to && a != "" then log.amount else 0)
            && Balance(c, a) == if log.from != ""
                                then Balance(b, a) - (if a == log.from then log.amount else 0) + (if a == log.to then log.amount else 0)
                                else if a == log.to then log.amount else Balance(b, a)
  {
    hide Value, Itoa;
    var d := Debit(b, log);
    if log.from != "" {
      ValueSet(b.db, log.from, Balance(b, log.from) - log.amount, a);
      ValueSet(b.db, log.from, Balance(b, log.from) - log.amount, log.to);
    }
    ValueSet(d.db, log.to, if log.from != "" then Balance(d, log.to) + log.amount else log.amount, a);
  }

  /** Saving a parsed log keeps snapshot and ledger together exactly when it is harmless. */
  lemma AgreementKeptExactlyWhen(b: Books, log: AccountLog)
    requires Agrees(b) && Parsed(log)
    ensures Agrees(Save(b, log)) <==> Harmless(b, log)
  {
    hide Value, Itoa, Balance;
    if log.kind != "checkpoint" && log.kind != "addtx" {
      if log.kind == "relaytx" {
        assert Save(b, log) == b;
      } else {
        forall a: string
          ensures AgreesAt(b, a)
          ensures Harmless(b, log) ==> AgreesAt(Save(b, log), a)
        {
          SaveEffect(b, log, a);
        }
        NamelessNeverCached(b, log);
        SaveEffect(b, log, log.to);
        assert AgreesAt(b, log.to);
        assert !Harmless(b, log) ==> !AgreesAt(Save(b, log), log.to);
      }
    }
  }

  lemma NamelessNeverCached(b: Books, log: AccountLog)
    ensures Cached(Save(b, log), "") == Cached(b, "")
  {
  }

  /** Minting twice to one account: the ledger keeps the second amount, the snapshot adds both. */
  lemma MintTwice(a: string, m: int, n: int)
    requires a != "" && m != 0
    ensures var mint := AccountLog("tx", "", a, m, "", 0);
            var b := Save(Books(map[], map[], map[]), mint);
            var c := Save(b, mint.(amount := n));
            Agrees(b) && Balance(c, a) == n && Value(c.content, a) + Cached(c, a) == m + n
  {
    var empty := Books(map[], map[], map[]);
    var mint := AccountLog("tx", "", a, m, "", 0);
    AgreementKeptExactlyWhen(empty, mint);
    SaveEffect(empty, mint, a);
    SaveEffect(Save(empty, mint), mint.(amount := n), a);
  }

  /** A transaction is logged, or the snapshot is brought up to date. */
  datatype Entry = Logged(log: AccountLog) | Snapshotted

  const NO_BOOKS := Books(map[], map[], map[])

  function Enter(b: Books, e: Entry): Books {
    match e
    case Logged(log) => Save(b, log)
    case Snapshotted => Snapshot(b)
  }

  /** The books after the first n entries. */
  function After(es: seq<Entry>, n: nat): Books
    requires n <= |es|
  {
    if n == 0 then NO_BOOKS else Enter(After(es, n - 1), es[n - 1])
  }

  predicate HarmlessAt(es: seq<Entry>, i: nat)
    requires i < |es|
  {
    es[i].Logged? ==> Harmless(After(es, i), es[i].log)
  }

  lemma EnterKeepsExactlyWhen(es: seq<Entry>, i: nat)
    requires i < |es| && (es[i].Logged? ==> Parsed(es[i].log)) && Agrees(After(es, i))
    ensures Agrees(After(es, i + 1)) <==> HarmlessAt(es, i)
  {
    hide Agrees, Save, Snapshot, Harmless;
    match es[i] {
      case Logged(log) => AgreementKeptExactlyWhen(After(es, i), log);
      case Snapshotted => MergeMakesLedger(After(es, i), "");
    }
  }

  lemma {:induction false} HarmlessAgree(es: seq<Entry>, n: nat)
    requires forall e <- es :: e.Logged? ==> Parsed(e.log)
    requires n <= |es| && forall i :: 0 <= i < n ==> HarmlessAt(es, i)
    ensures Agrees(After(es, n))
  {
    hide Agrees, HarmlessAt, Enter;
    if n == 0 {
      NoBooksAgree();
    } else {
      HarmlessAgree(es, n - 1);
      EnterKeepsExactlyWhen(es, n - 1);
    }
  }

  lemma NoBooksAgree()
    ensures Agrees(NO_BOOKS)
  {
  }

  ghost predicate AgreesAfter(es: seq<Entry>, n: nat)
    requires n <= |es|
  {
    Agrees(After(es, n))
  }

  /** Over every run of logs and snapshots, the snapshot and its differences add up to the ledger after
      every entry exactly when every log is harmless where it stands. */
  lemma RunsAgree(es: seq<Entry>)
    requires forall e <- es :: e.Logged? ==> Parsed(e.log)
    ensures (forall n: nat :: n <= |es| ==> AgreesAfter(es, n)) <==> (forall i: nat :: i < |es| ==> HarmlessAt(es, i))
  {
    hide Agrees, HarmlessAt, After;
    if forall i: nat :: i < |es| ==> HarmlessAt(es, i) {
      forall n: nat | n <= |es|
        ensures AgreesAfter(es, n)
      {
        HarmlessAgree(es, n);
      }
    } else {
      var i: nat :| i < |es| && !HarmlessAt(es, i);
      if AgreesAfter(es, i) {
        EnterKeepsExactlyWhen(es, i);
        assert !AgreesAfter(es, i + 1);
      }
    }
  }

  lemma MergeMakesLedger(b: Books, a: string)
    requires Agrees(b)
    ensures var c := Snapshot(b);
            Agrees(c) && Value(c.content, a) == Balance(c, a)
  {
    hide Itoa, ToDigit;
    var c := Snapshot(b);
    forall x: string
      ensures Value(c.content, x) == Balance(c, x)
    {
      assert AgreesAt(b, x);
      if x in b.cache {
        ToDigitItoa(Value(b.content, x) + b.cache[x]);
      }
    }
  }

  lemma ToDigitItoa(n: int)
    ensures ToDigit(Itoa(n)) == n
  {
    ItoaRoundTrip(n);
  }

  // ----- conservation ----------------------------------------------------------------------------

  function Sum(b: Books, accounts: seq<string>): int {
    if accounts == [] then 0 else Sum(b, accounts[..|accounts| - 1]) + Balance(b, accounts[|accounts| - 1])
  }

  ghost predicate Distinct(accounts: seq<string>) {
    forall i, j :: 0 <= i < j < |accounts| ==> accounts[i] != accounts[j]
  }

  lemma {:induction false} SumAfter(b: Books, log: AccountLog, accounts: seq<string>)
    requires log.kind == "tx" && log.from != "" && Distinct(accounts)
    ensures Sum(Save(b, log), accounts) ==
            Sum(b, accounts) - (if log.from in accounts then log.amount else 0) + (if log.to in accounts then log.amount else 0)
  {
    hide Save, Value;
    if accounts != [] {
      var n := |accounts| - 1;
      SumAfter(b, log, accounts[..n]);
      SaveEffect(b, log, accounts[n]);
      assert accounts == accounts[..n] + [accounts[n]];
      assert accounts[n] !in accounts[..n];
    }
  }

  /** A transfer moves balance and creates none: over any distinct accounts that include both ends the
      total is unchanged. */
  lemma TransferConserves(b: Books, log: AccountLog, accounts: seq<string>)
    requires log.kind == "tx" && log.from != "" && Distinct(accounts) && log.from in accounts && log.to in accounts
    ensures Sum(Save(b, log), accounts) == Sum(b, accounts)
  {
    SumAfter(b, log, accounts);
  }
}
