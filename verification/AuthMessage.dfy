// The sign-in message: one builder, one parser.
module AuthMessage {
  import opened Options

  datatype Params = Params(domain: string, wallet: string, nonce: string, issuedAt: string, expiresAt: string, statement: string)

  datatype Parts = Parts(domain: Option<string>, wallet: Option<string>, nonce: Option<string>, issuedAt: Option<string>,
                         expiresAt: Option<string>)

  const GREETING: string := " wants you to sign in" + " with your Solana account:"
  const NONCE: string := "Nonce: "
  const ISSUED: string := "Issued At: "
  const EXPIRES: string := "Expires At: "

  // ---- Lines ---------------------------------------------------------------

  function Join(lines: seq<string>): string {
    if lines == [] then ""
    else if |lines| == 1 then lines[0]
    else lines[0] + "\n" + Join(lines[1..])
  }

  // A character in front of the first line, or a new line of its own.
  function Prepend(c: char, lines: seq<string>): (longer: seq<string>)
    requires lines != []
    ensures longer != []
  {
    if c == '\n' then [""] + lines else [[c] + lines[0]] + lines[1..]
  }

  function Split(s: string): (lines: seq<string>)
    ensures lines != []
  {
    if s == "" then [""] else Prepend(s[0], Split(s[1..]))
  }

  lemma PrependAppends(c: char, x: seq<string>, y: seq<string>)
    requires x != []
    ensures Prepend(c, x + y) == Prepend(c, x) + y
  {
    assert (x + y)[1..] == x[1..] + y && (x + y)[0] == x[0];
  }

  lemma {:induction false} SplitAt(a: string, b: string)
    ensures Split(a + "\n" + b) == Split(a) + Split(b)
    decreases |a|
  {
    var s := a + "\n" + b;
    if a == "" {
      assert s[1..] == b && s[0] == '\n';
    } else {
      assert s[1..] == a[1..] + "\n" + b && s[0] == a[0];
      SplitAt(a[1..], b);
      PrependAppends(a[0], Split(a[1..]), Split(b));
    }
  }

  lemma {:induction false} SplitOne(s: string)
    requires '\n' !in s
    ensures Split(s) == [s]
    decreases |s|
  {
    if s != "" {
      SplitOne(s[1..]);
      assert [s[0]] + s[1..] == s && [s[1..]][1..] == [];
    }
  }

  lemma {:induction false} LinesWhole(s: string)
    ensures forall i :: 0 <= i < |Split(s)| ==> '\n' !in Split(s)[i]
    decreases |s|
  {
    if s != "" {
      LinesWhole(s[1..]);
      var rest := Split(s[1..]);
      assert '\n' !in rest[0];
      if s[0] != '\n' { assert '\n' !in [s[0]] + rest[0]; }
      assert forall i :: 1 <= i < |Prepend(s[0], rest)| ==> Prepend(s[0], rest)[i] in rest;
    }
  }

  // ---- Building and parsing ------------------------------------------------

  function Lines(p: Params): seq<string> {
    [p.domain + GREETING, p.wallet, "", p.statement, "", NONCE + p.nonce, ISSUED + p.issuedAt, EXPIRES + p.expiresAt]
  }

  function Build(p: Params): string { Join(Lines(p)) }

  // What a regular expression's dot does not match.
  predicate Terminator(c: char) { c == '\n' || c == '\r' || c == '\U{2028}' || c == '\U{2029}' }

  // What `.+` matches in full.
  predicate Clean(s: string) { s != "" && forall i :: 0 <= i < |s| ==> !Terminator(s[i]) }

  function Field(line: string, prefix: string): Option<string> {
    if prefix <= line && Clean(line[|prefix|..]) then Some(line[|prefix|..]) else None
  }

  function Domain(line: string): Option<string> {
    var n := |line| - |GREETING|;
    if 0 <= n && line[n..] == GREETING && Clean(line[..n]) then Some(line[..n]) else None
  }

  // The last line that carries the field decides.
  function LastField(lines: seq<string>, prefix: string): Option<string> {
    if lines == [] then None
    else
      var field := Field(lines[|lines| - 1], prefix);
      if field.Some? then field else LastField(lines[..|lines| - 1], prefix)
  }

  function PartsOf(lines: seq<string>): Parts
    requires lines != []
  {
    Parts(Domain(lines[0]), if |lines| > 1 && lines[1] != "" then Some(lines[1]) else None,
          LastField(lines, NONCE), LastField(lines, ISSUED), LastField(lines, EXPIRES))
  }

  method ParseAuthMessage(message: string) returns (parts: Parts)
    ensures parts == PartsOf(Split(message))
  {
    var lines := Split(message);
    parts := Parts(Domain(lines[0]), None, None, None, None);
    if |lines| > 1 && lines[1] != "" { parts := parts.(wallet := Some(lines[1])); }
    hide Field, Domain, Split;
    for i := 0 to |lines|
      invariant parts.domain == Domain(lines[0]) && parts.wallet == if |lines| > 1 && lines[1] != "" then Some(lines[1]) else None
      invariant parts.nonce == LastField(lines[..i], NONCE)
      invariant parts.issuedAt == LastField(lines[..i], ISSUED) && parts.expiresAt == LastField(lines[..i], EXPIRES)
    {
      assert lines[..i + 1][..i] == lines[..i];
      var nonce := Field(lines[i], NONCE);
      if nonce.Some? { parts := parts.(nonce := nonce); }
      var issued := Field(lines[i], ISSUED);
      if issued.Some? { parts := parts.(issuedAt := issued); }
      var expires := Field(lines[i], EXPIRES);
      if expires.Some? { parts := parts.(expiresAt := expires); }
    }
    assert lines[..|lines|] == lines;
  }

  // ---- The round trip ------------------------------------------------------

  function Wanted(p: Params): Parts {
    Parts(Some(p.domain), Some(p.wallet), Some(p.nonce), Some(p.issuedAt), Some(p.expiresAt))
  }

  ghost predicate Writable(p: Params) {
    && Clean(p.domain) && p.wallet != "" && '\n' !in p.wallet && Clean(p.nonce) && Clean(p.issuedAt) && Clean(p.expiresAt)
  }

  lemma LabelsUnbroken()
    ensures '\n' !in GREETING && '\n' !in NONCE && '\n' !in ISSUED && '\n' !in EXPIRES
  {
  }

  lemma FieldLines(p: Params)
    requires Writable(p)
    ensures Split(p.domain + GREETING) == [p.domain + GREETING] && Split(NONCE + p.nonce) == [NONCE + p.nonce]
    ensures Split(ISSUED + p.issuedAt) == [ISSUED + p.issuedAt] && Split(EXPIRES + p.expiresAt) == [EXPIRES + p.expiresAt]
    ensures Split(p.wallet) == [p.wallet] && Split("") == [""]
  {
    LabelsUnbroken();
    SplitOne(p.domain + GREETING);
    SplitOne(NONCE + p.nonce);
    SplitOne(ISSUED + p.issuedAt);
    SplitOne(EXPIRES + p.expiresAt);
    SplitOne(p.wallet);
  }

  // The statement's own lines stay in the middle.
  lemma BuiltLines(p: Params)
    requires Writable(p)
    ensures Split(Build(p)) == [p.domain + GREETING, p.wallet, ""] + Split(p.statement)
                               + ["", NONCE + p.nonce, ISSUED + p.issuedAt, EXPIRES + p.expiresAt]
  {
    FieldLines(p);
    SplitEight(Lines(p));
    hide Split, Clean, Join;
    Regroup([p.domain + GREETING], [p.wallet], [""], Split(p.statement), [""], [NONCE + p.nonce], [ISSUED + p.issuedAt],
            [EXPIRES + p.expiresAt]);
  }

  lemma Regroup(a: seq<string>, b: seq<string>, c: seq<string>, d: seq<string>, e: seq<string>, f: seq<string>, g: seq<string>,
                h: seq<string>)
    ensures a + (b + (c + (d + (e + (f + (g + h)))))) == (a + b + c) + d + (e + f + g + h)
  {
  }

  lemma SplitEight(lines: seq<string>)
    requires |lines| == 8
    ensures Split(Join(lines)) == Split(lines[0]) + (Split(lines[1]) + (Split(lines[2]) + (Split(lines[3]) + (Split(lines[4])
                                  + (Split(lines[5]) + (Split(lines[6]) + Split(lines[7])))))))
  {
    assert Join(lines[7..]) == lines[7];
    hide Split, Join;
    JoinSplits(lines, 6);
    JoinSplits(lines, 5);
    JoinSplits(lines, 4);
    JoinSplits(lines, 3);
    JoinSplits(lines, 2);
    JoinSplits(lines, 1);
    JoinSplits(lines, 0);
    assert lines[0..] == lines;
  }

  lemma JoinSplits(lines: seq<string>, k: nat)
    requires k + 1 < |lines|
    ensures Split(Join(lines[k..])) == Split(lines[k]) + Split(Join(lines[k + 1..]))
  {
    assert lines[k..][1..] == lines[k + 1..];
    SplitAt(lines[k], Join(lines[k + 1..]));
  }

  lemma FieldReads(prefix: string, value: string)
    requires Clean(value)
    ensures Field(prefix + value, prefix) == Some(value)
  {
    assert (prefix + value)[|prefix|..] == value;
  }

  // Every field comes back exactly when the fields are non-empty and unbroken,
  // whatever the statement holds.
  lemma RoundTripIff(p: Params)
    ensures PartsOf(Split(Build(p))) == Wanted(p) <==> Writable(p)
  {
    if Writable(p) {
      Recovered(p);
    } else {
      PartsClean(Build(p));
    }
  }

  lemma Recovered(p: Params)
    requires Writable(p)
    ensures PartsOf(Split(Build(p))) == Wanted(p)
  {
    BuiltLines(p);
    var front := [p.domain + GREETING, p.wallet, ""] + Split(p.statement) + [""];
    var n, i, e := NONCE + p.nonce, ISSUED + p.issuedAt, EXPIRES + p.expiresAt;
    var lines := front + [n] + [i] + [e];
    assert Split(Build(p)) == lines;
    FieldReads(NONCE, p.nonce);
    FieldReads(ISSUED, p.issuedAt);
    FieldReads(EXPIRES, p.expiresAt);
    assert e[0] == 'E' && i[0] == 'I';
    assert Field(e, NONCE) == Field(i, NONCE) == Field(e, ISSUED) == None;
    DomainReads(p.domain);
    hide Field, Domain, Split, Clean;
    LastAppended(front + [n] + [i], e, NONCE);
    LastAppended(front + [n], i, NONCE);
    LastAppended(front, n, NONCE);
    LastAppended(front + [n] + [i], e, ISSUED);
    LastAppended(front + [n], i, ISSUED);
    LastAppended(front + [n] + [i], e, EXPIRES);
    hide LastField;
    assert lines[0] == p.domain + GREETING && lines[1] == p.wallet;
  }

  lemma LastAppended(front: seq<string>, line: string, prefix: string)
    ensures LastField(front + [line], prefix) == if Field(line, prefix).Some? then Field(line, prefix) else LastField(front, prefix)
  {
    assert (front + [line])[..|front|] == front;
  }

  lemma DomainReads(domain: string)
    requires Clean(domain)
    ensures Domain(domain + GREETING) == Some(domain)
  {
    var line := domain + GREETING;
    assert line[|domain|..] == GREETING && line[..|domain|] == domain;
  }

  lemma PartsClean(message: string)
    ensures var parts := PartsOf(Split(message));
            && (parts.domain.Some? ==> Clean(parts.domain.value)) && (parts.nonce.Some? ==> Clean(parts.nonce.value))
            && (parts.issuedAt.Some? ==> Clean(parts.issuedAt.value)) && (parts.expiresAt.Some? ==> Clean(parts.expiresAt.value))
            && (parts.wallet.Some? ==> parts.wallet.value != "" && '\n' !in parts.wallet.value)
  {
    LinesWhole(message);
    LastClean(Split(message), NONCE);
    LastClean(Split(message), ISSUED);
    LastClean(Split(message), EXPIRES);
  }

  lemma {:induction false} LastClean(lines: seq<string>, prefix: string)
    ensures LastField(lines, prefix).Some? ==> Clean(LastField(lines, prefix).value)
  {
    if lines != [] { LastClean(lines[..|lines| - 1], prefix); }
  }
}
