/** The registry key "http://" + name + ":" + port, and how it is read back. */
module ServiceUrl {
  import opened Wrappers

  const SCHEME := "http://"

  function Decimal(n: nat): string {
    (if n < 10 then "" else Decimal(n / 10)) + ['0' + (n % 10) as char]
  }

  /** String concatenation of an int. */
  function Text(port: int): string {
    if port < 0 then "-" + Decimal(-port) else Decimal(port)
  }

  /** getUrlFromMsInfo. */
  function Render(name: string, port: int): string {
    SCHEME + name + ":" + Text(port)
  }

  // ---------------------------------------------------------------- reading back

  function DigitValue(c: char): nat {
    if '0' <= c <= '9' then (c - '0') as nat else 0
  }

  function NatValue(text: string): nat {
    if text == "" then 0 else 10 * NatValue(text[..|text| - 1]) + DigitValue(text[|text| - 1])
  }

  function IntValue(text: string): int {
    if text != "" && text[0] == '-' then 0 - NatValue(text[1..]) else NatValue(text)
  }

  function LastColon(text: string): Option<nat> {
    if text == "" then None
    else if text[|text| - 1] == ':' then Some(|text| - 1)
    else LastColon(text[..|text| - 1])
  }

  datatype Address = Address(name: string, port: int)

  /** Split at the last colon. */
  function Parse(url: string): Option<Address> {
    if !(SCHEME <= url) then None
    else
      var rest := url[|SCHEME|..];
      var colon := LastColon(rest);
      if colon.None? || colon.value >= |rest| then None
      else Some(Address(rest[..colon.value], IntValue(rest[colon.value + 1..])))
  }

  predicate AllDigits(text: string) {
    forall i :: 0 <= i < |text| ==> '0' <= text[i] <= '9'
  }

  lemma DigitReadsBack(front: string, d: nat)
    requires d < 10 && AllDigits(front)
    ensures var text := front + ['0' + d as char];
            NatValue(text) == 10 * NatValue(front) + d && text != "" && AllDigits(text)
  {
    assert (front + ['0' + d as char])[..|front|] == front;
  }

  lemma {:induction false} DecimalReadsBack(n: nat)
    ensures NatValue(Decimal(n)) == n
    ensures Decimal(n) != "" && AllDigits(Decimal(n))
  {
    if n < 10 {
      DigitReadsBack("", n);
    } else {
      DecimalReadsBack(n / 10);
      DigitReadsBack(Decimal(n / 10), n % 10);
    }
  }

  lemma SignReadsBack(digits: string)
    requires digits != "" && AllDigits(digits)
    ensures IntValue(digits) == NatValue(digits) && IntValue("-" + digits) == 0 - NatValue(digits)
    ensures ':' !in digits && ':' !in "-" + digits
  {
    assert ("-" + digits)[1..] == digits;
  }

  lemma TextReadsBack(port: int)
    ensures IntValue(Text(port)) == port
    ensures ':' !in Text(port)
  {
    var n := if port < 0 then -port else port;
    DecimalReadsBack(n);
    SignReadsBack(Decimal(n));
  }

  lemma {:induction false} LastColonAt(name: string, tail: string)
    requires ':' !in tail
    ensures LastColon(name + ":" + tail) == Some(|name|)
  {
    var text := name + ":" + tail;
    if tail != "" {
      LastColonAt(name, tail[..|tail| - 1]);
      assert text[..|text| - 1] == name + ":" + tail[..|tail| - 1];
    }
  }

  lemma ParseSplits(name: string, tail: string)
    requires ':' !in tail
    ensures Parse(SCHEME + name + ":" + tail) == Some(Address(name, IntValue(tail)))
  {
    var rest := name + ":" + tail;
    LastColonAt(name, tail);
    assert SCHEME + name + ":" + tail == SCHEME + rest;
    assert (SCHEME + rest)[|SCHEME|..] == rest;
    assert rest[..|name|] == name && rest[|name| + 1..] == tail;
  }

  /** Name and port can be read back from the key, even when the name contains colons. */
  lemma RenderReadsBack(name: string, port: int)
    ensures Parse(Render(name, port)) == Some(Address(name, port))
  {
    TextReadsBack(port);
    ParseSplits(name, Text(port));
  }

  /** Two services share a registry key exactly when name and port agree. */
  lemma KeysAgreeExactlyWhen(name: string, port: int, name': string, port': int)
    ensures Render(name, port) == Render(name', port') <==> name == name' && port == port'
  {
    RenderReadsBack(name, port);
    RenderReadsBack(name', port');
  }

  lemma DigitIs(d: nat)
    requires d < 10
    ensures '0' + d as char == "0123456789"[d]
    ensures d > 0 ==> '0' + d as char in "123456789"
  {
    assert "123456789" == "0123456789"[1..];
    assert d > 0 ==> "0123456789"[1..][d - 1] == "0123456789"[d];
  }

  /** The text of a number: decimal digits without leading zeros, after a minus sign if it is negative. */
  lemma {:induction false} DecimalIs(n: nat)
    ensures Decimal(n) == if n < 10 then ["0123456789"[n]] else Decimal(n / 10) + ["0123456789"[n % 10]]
    ensures n > 0 ==> Decimal(n)[0] in "123456789"
  {
    DigitIs(n % 10);
    if n >= 10 {
      DecimalIs(n / 10);
    }
  }

  /** What a key looks like. */
  lemma RenderIs(name: string, port: int)
    ensures Render(name, port) == "http://" + name + ":" + if port < 0 then "-" + Decimal(-port) else Decimal(port)
    ensures Render("control", 8080) == "http://control:8080"
  {
    assert Decimal(8080) == "8080" by {
      assert Decimal(8) == "8" && Decimal(80) == "80" && Decimal(808) == "808";
    }
  }
}
