/**
 Telnet option negotiation in the relay driver (hardware/relay_eth.py, `_handle_iac`).

 The decoder is proved against a token grammar of the byte stream (RFC 854, sections
 "General Considerations" and "TELNET Command Structure"; RFC 855 for subnegotiation).
 Every chunk is, in exactly one way, a list of complete tokens followed by a cut tail.
 */
module Telnet {
  import opened Results

  type Byte = b: int | 0 <= b < 256

  const IAC: Byte := 255
  const DONT: Byte := 254
  const DO: Byte := 253
  const WONT: Byte := 252
  const WILL: Byte := 251
  const SB: Byte := 250
  const SE: Byte := 240

  predicate IsVerb(b: Byte) {
    b == WILL || b == WONT || b == DO || b == DONT
  }

  datatype Token =
    | Data(b: Byte)
    | Literal255
    | Negotiate(verb: Byte, option: Byte)
    | Subnegotiation(body: seq<Byte>)
    | Command(code: Byte)

  /** What a chunk may end with when it stops inside an IAC sequence. */
  datatype Tail =
    | Whole
    | LoneIac
    | CutVerb(verb: Byte)
    | OpenSubnegotiation(body: seq<Byte>)

  predicate TerminatorAt(s: seq<Byte>, i: nat) {
    i + 1 < |s| && s[i] == IAC && s[i + 1] == SE
  }

  /** No IAC SE pair starts in the first `n` positions of `s`. */
  predicate NoTerminator(s: seq<Byte>, n: nat) {
    forall i: nat :: i < n ==> !TerminatorAt(s, i)
  }

  predicate WellFormed(t: Token) {
    match t
    case Data(b) => b != IAC
    case Literal255 => true
    case Negotiate(verb, _) => IsVerb(verb)
    case Subnegotiation(body) => NoTerminator(body + [IAC, SE], |body|)
    case Command(code) => code != IAC && !IsVerb(code) && code != SB
  }

  predicate WellFormedTail(t: Tail) {
    match t
    case CutVerb(verb) => IsVerb(verb)
    case OpenSubnegotiation(body) => NoTerminator(body, |body|)
    case _ => true
  }

  ghost predicate AllWellFormed(ts: seq<Token>) {
    forall i :: 0 <= i < |ts| ==> WellFormed(ts[i])
  }

  function EncodeToken(t: Token): seq<Byte> {
    match t
    case Data(b) => [b]
    case Literal255 => [IAC, IAC]
    case Negotiate(verb, option) => [IAC, verb, option]
    case Subnegotiation(body) => [IAC, SB] + body + [IAC, SE]
    case Command(code) => [IAC, code]
  }

  function Encode(ts: seq<Token>): seq<Byte> {
    if ts == [] then [] else EncodeToken(ts[0]) + Encode(ts[1..])
  }

  function TailBytes(t: Tail): seq<Byte> {
    match t
    case Whole => []
    case LoneIac => [IAC]
    case CutVerb(verb) => [IAC, verb]
    case OpenSubnegotiation(body) => [IAC, SB] + body
  }

  /** The visible text of a token list: data bytes and unescaped 255s. */
  function Payload(ts: seq<Token>): seq<Byte> {
    if ts == [] then []
    else Shown(ts[0]) + Payload(ts[1..])
  }

  /** The text of one token. */
  function Shown(t: Token): seq<Byte> {
    match t case Data(b) => [b] case Literal255 => [IAC] case _ => []
  }

  /** One refusal per WILL or DO, in order; WONT and DONT are not answered. */
  function Declines(ts: seq<Token>): seq<Token> {
    if ts == [] then []
    else
      (match ts[0]
       case Negotiate(verb, option) =>
         if verb == WILL then [Negotiate(DONT, option)]
         else if verb == DO then [Negotiate(WONT, option)]
         else []
       case _ => [])
      + Declines(ts[1..])
  }

  /** What a cut tail leaves in the text: only the command byte of a cut negotiation. */
  function Leak(t: Tail): seq<Byte> {
    match t
    case CutVerb(verb) => [verb]
    case _ => []
  }

  /** First position at or after `p` where IAC SE starts (`bytes.find`). */
  function FindTerminator(c: seq<Byte>, p: nat): (r: Option<nat>)
    ensures r.Some? ==> p <= r.value && TerminatorAt(c, r.value)
    ensures r.Some? ==> forall i: nat :: p <= i < r.value ==> !TerminatorAt(c, i)
    ensures r.None? ==> forall i: nat :: p <= i ==> !TerminatorAt(c, i)
    decreases |c| - p
  {
    if p + 1 >= |c| then None
    else if TerminatorAt(c, p) then Some(p)
    else FindTerminator(c, p + 1)
  }

  /** How a non-empty chunk starts: with a complete token, or with a cut sequence filling the chunk. */
  datatype Head = Complete(token: Token) | Cut(tail: Tail)

  function HeadOf(c: seq<Byte>): (h: Head)
    requires c != []
  {
    if c[0] != IAC then Complete(Data(c[0]))
    else if |c| == 1 then Cut(LoneIac)
    else if c[1] == IAC then Complete(Literal255)
    else if IsVerb(c[1]) then
      if |c| == 2 then Cut(CutVerb(c[1])) else Complete(Negotiate(c[1], c[2]))
    else if c[1] == SB then
      match FindTerminator(c, 2)
      case None => Cut(OpenSubnegotiation(c[2..]))
      case Some(e) => Complete(Subnegotiation(c[2..e]))
    else Complete(Command(c[1]))
  }

  lemma HeadIsPrefix(c: seq<Byte>)
    requires c != []
    ensures HeadOf(c).Complete? ==>
              var t := HeadOf(c).token;
              WellFormed(t) && 1 <= |EncodeToken(t)| <= |c| && EncodeToken(t) == c[..|EncodeToken(t)|]
    ensures HeadOf(c).Cut? ==> WellFormedTail(HeadOf(c).tail) && TailBytes(HeadOf(c).tail) == c
  {
    if |c| > 1 && c[0] == IAC && c[1] == SB {
      SubnegotiationIsPrefix(c);
    }
  }

  lemma {:induction false} SubnegotiationIsPrefix(c: seq<Byte>)
    requires |c| > 1 && c[0] == IAC && c[1] == SB
    ensures var end := FindTerminator(c, 2);
            if end.None? then WellFormedTail(OpenSubnegotiation(c[2..]))
            else
              var t := Subnegotiation(c[2..end.value]);
              WellFormed(t) && |EncodeToken(t)| <= |c| && EncodeToken(t) == c[..|EncodeToken(t)|]
  {
    var end := FindTerminator(c, 2);
    if end.None? {
      forall i: nat ensures !TerminatorAt(c[2..], i) {
        assert !TerminatorAt(c, 2 + i);
      }
    } else {
      var body := c[2..end.value];
      forall i: nat | i < |body| ensures !TerminatorAt(body + [IAC, SE], i) {
        assert !TerminatorAt(c, 2 + i);
      }
    }
  }

  lemma {:induction false} HeadOfEncoding(t: Token, rest: seq<Byte>)
    requires WellFormed(t)
    ensures HeadOf(EncodeToken(t) + rest) == Complete(t)
  {
    if t.Subnegotiation? { HeadOfSubnegotiation(t.body, rest); }
  }

  lemma {:induction false} HeadOfSubnegotiation(body: seq<Byte>, rest: seq<Byte>)
    requires NoTerminator(body + [IAC, SE], |body|)
    ensures var c := [IAC, SB] + body + [IAC, SE] + rest;
            FindTerminator(c, 2) == Some(|body| + 2) && c[2..|body| + 2] == body
  {
    var closed := body + [IAC, SE];
    var c := [IAC, SB] + body + [IAC, SE] + rest;
    var e := |body| + 2;
    assert forall k :: 0 <= k < |closed| ==> c[2 + k] == closed[k];
    assert TerminatorAt(c, e);
    forall i: nat | 2 <= i < e ensures !TerminatorAt(c, i) {
      assert !TerminatorAt(closed, i - 2);
      assert c[i] == closed[i - 2] && c[i + 1] == closed[i - 1];
    }
  }

  lemma HeadOfTail(tail: Tail)
    requires WellFormedTail(tail) && tail != Whole
    ensures HeadOf(TailBytes(tail)) == Cut(tail)
  {
    if tail.OpenSubnegotiation? {
      var c := TailBytes(tail);
      assert c[2..] == tail.body;
      forall i: nat | 2 <= i ensures !TerminatorAt(c, i) {
        assert i - 2 < |tail.body| ==> !TerminatorAt(tail.body, i - 2);
      }
    }
  }

  datatype Parse = Parse(tokens: seq<Token>, tail: Tail)

  /** The reference parser of a chunk. */
  function Tokenize(c: seq<Byte>): Parse
    decreases |c|
  {
    if c == [] then Parse([], Whole)
    else
      match HeadOf(c)
      case Cut(tail) => Parse([], tail)
      case Complete(t) =>
        HeadIsPrefix(c);
        var p := Tokenize(c[|EncodeToken(t)|..]);
        Parse([t] + p.tokens, p.tail)
  }

  /** Every chunk is the encoding of its parse, and the parse is well formed. */
  lemma {:induction false} TokenizeSound(c: seq<Byte>)
    ensures AllWellFormed(Tokenize(c).tokens) && WellFormedTail(Tokenize(c).tail)
    ensures Encode(Tokenize(c).tokens) + TailBytes(Tokenize(c).tail) == c
    decreases |c|
  {
    if c == [] {
    } else {
      HeadIsPrefix(c);
      if HeadOf(c).Complete? {
        var t := HeadOf(c).token;
        TokenizeSound(c[|EncodeToken(t)|..]);
        SoundStep(c, t, Tokenize(c[|EncodeToken(t)|..]));
      }
    }
  }

  lemma {:induction false} SoundStep(c: seq<Byte>, t: Token, p: Parse)
    requires WellFormed(t) && AllWellFormed(p.tokens)
    requires |EncodeToken(t)| <= |c| && EncodeToken(t) == c[..|EncodeToken(t)|]
    requires Encode(p.tokens) + TailBytes(p.tail) == c[|EncodeToken(t)|..]
    ensures AllWellFormed([t] + p.tokens) && Encode([t] + p.tokens) + TailBytes(p.tail) == c
  {
    EncodeCons(t, p);
  }

  lemma {:induction false} EncodeCons(t: Token, p: Parse)
    ensures Encode([t] + p.tokens) + TailBytes(p.tail) == EncodeToken(t) + (Encode(p.tokens) + TailBytes(p.tail))
  {
    assert ([t] + p.tokens)[1..] == p.tokens;
    Associative(EncodeToken(t), Encode(p.tokens), TailBytes(p.tail));
  }

  lemma TokenizeFirst(t: Token, rest: seq<Byte>)
    requires WellFormed(t)
    ensures Tokenize(EncodeToken(t) + rest) == Parse([t] + Tokenize(rest).tokens, Tokenize(rest).tail)
  {
    HeadOfEncoding(t, rest);
    assert (EncodeToken(t) + rest)[|EncodeToken(t)|..] == rest;
  }

  lemma {:induction false} TokenizeTail(tail: Tail)
    requires WellFormedTail(tail)
    ensures Tokenize(TailBytes(tail)) == Parse([], tail)
  {
    if tail != Whole { HeadOfTail(tail); }
  }

  /** Every well-formed token list and tail is the parse of its encoding: the grammar is unambiguous. */
  lemma {:induction false} TokenizeEncode(ts: seq<Token>, tail: Tail)
    requires AllWellFormed(ts) && WellFormedTail(tail)
    ensures Tokenize(Encode(ts) + TailBytes(tail)) == Parse(ts, tail)
  {
    if ts == [] {
      assert Encode(ts) + TailBytes(tail) == TailBytes(tail);
      TokenizeTail(tail);
    } else {
      var rest := Encode(ts[1..]) + TailBytes(tail);
      TokenizeEncode(ts[1..], tail);
      Associative(EncodeToken(ts[0]), Encode(ts[1..]), TailBytes(tail));
      TokenizeFirst(ts[0], rest);
      assert [ts[0]] + ts[1..] == ts;
    }
  }

  /** The text a chunk decodes to. */
  function Text(c: seq<Byte>): seq<Byte> {
    Payload(Tokenize(c).tokens) + Leak(Tokenize(c).tail)
  }

  /** The reply bytes a chunk is answered with. */
  function Answers(c: seq<Byte>): seq<Byte> {
    Encode(Declines(Tokenize(c).tokens))
  }

  lemma {:induction false} EncodeAppend(a: seq<Token>, b: seq<Token>)
    ensures Encode(a + b) == Encode(a) + Encode(b)
  {
    if a == [] {
      assert a + b == b;
    } else {
      assert (a + b)[1..] == a[1..] + b;
      EncodeAppend(a[1..], b);
    }
  }

  lemma {:induction false} PayloadAppend(a: seq<Token>, b: seq<Token>)
    ensures Payload(a + b) == Payload(a) + Payload(b)
  {
    if a == [] {
      assert a + b == b;
    } else {
      assert (a + b)[1..] == a[1..] + b;
      PayloadAppend(a[1..], b);
    }
  }

  lemma {:induction false} DeclinesAppend(a: seq<Token>, b: seq<Token>)
    ensures Declines(a + b) == Declines(a) + Declines(b)
  {
    if a == [] {
      assert a + b == b;
    } else {
      assert (a + b)[1..] == a[1..] + b;
      DeclinesAppend(a[1..], b);
    }
  }

  /** The reply bytes to one token. */
  function Answered(t: Token): seq<Byte> {
    if t.Negotiate? && t.verb == WILL then [IAC, DONT, t.option]
    else if t.Negotiate? && t.verb == DO then [IAC, WONT, t.option]
    else []
  }

  lemma MeaningOfOne(t: Token)
    ensures Payload([t]) == Shown(t) && Encode(Declines([t])) == Answered(t)
  {
    assert [t][1..] == [];
    if t.Negotiate? && (t.verb == WILL || t.verb == DO) {
      var d := Negotiate(if t.verb == WILL then DONT else WONT, t.option);
      assert Declines([t]) == [d] && [d][1..] == [];
    }
  }

  lemma {:induction false} OneMoreToken(done: seq<Token>, t: Token)
    ensures Payload(done + [t]) == Payload(done) + Shown(t)
    ensures Encode(Declines(done + [t])) == Encode(Declines(done)) + Answered(t)
  {
    PayloadAppend(done, [t]);
    DeclinesAppend(done, [t]);
    MeaningOfOne(t);
    EncodeAppend(Declines(done), Declines([t]));
  }

  /** Searching the whole chunk and searching its unread part agree. */
  lemma FindInSuffix(chunk: seq<Byte>, i: nat)
    requires i + 2 <= |chunk|
    ensures var whole, part := FindTerminator(chunk, i + 2), FindTerminator(chunk[i..], 2);
            whole.Some? == part.Some? && (whole.Some? ==> whole.value == i + part.value)
  {
    var c := chunk[i..];
    var whole, part := FindTerminator(chunk, i + 2), FindTerminator(c, 2);
    assert forall k: nat :: TerminatorAt(c, k) <==> TerminatorAt(chunk, i + k);
    if whole.Some? {
      assert TerminatorAt(c, whole.value - i);
    }
  }

  /** The head at position `i`, read off the chunk itself. */
  lemma HeadAt(chunk: seq<Byte>, i: nat)
    requires i < |chunk|
    ensures chunk[i] != IAC ==> HeadOf(chunk[i..]) == Complete(Data(chunk[i]))
    ensures chunk[i] == IAC && i + 1 == |chunk| ==> HeadOf(chunk[i..]) == Cut(LoneIac)
    ensures chunk[i] == IAC && i + 1 < |chunk| ==>
              var cmd := chunk[i + 1];
              var end := FindTerminator(chunk, i + 2);
              HeadOf(chunk[i..]) ==
              if cmd == IAC then Complete(Literal255)
              else if IsVerb(cmd) then
                if i + 2 == |chunk| then Cut(CutVerb(cmd)) else Complete(Negotiate(cmd, chunk[i + 2]))
              else if cmd == SB then
                if end.None? then Cut(OpenSubnegotiation(chunk[i + 2..])) else Complete(Subnegotiation(chunk[i + 2..end.value]))
              else Complete(Command(cmd))
  {
    if chunk[i] == IAC && i + 1 < |chunk| && chunk[i + 1] == SB {
      FindInSuffix(chunk, i);
      var part := FindTerminator(chunk[i..], 2);
      assert chunk[i..][2..] == chunk[i + 2..];
      if part.Some? {
        assert chunk[i..][2..part.value] == chunk[i + 2..i + part.value];
      }
    }
  }

  /** The loop has consumed exactly the tokens `done`, and the rest of the chunk is still to be parsed. */
  ghost predicate Reached(chunk: seq<Byte>, i: nat, done: seq<Token>) {
    i <= |chunk| && Tokenize(chunk) == Parse(done + Tokenize(chunk[i..]).tokens, Tokenize(chunk[i..]).tail)
  }

  lemma {:induction false} ReachedAfter(chunk: seq<Byte>, i: nat, done: seq<Token>, t: Token, next: nat)
    requires i < |chunk| && Reached(chunk, i, done) && HeadOf(chunk[i..]) == Complete(t) && next == i + |EncodeToken(t)|
    ensures i < next <= |chunk| && Reached(chunk, next, done + [t])
  {
    FirstToken(chunk[i..], t);
    assert chunk[next..] == chunk[i..][|EncodeToken(t)|..];
    Regroup(Tokenize(chunk), done, Tokenize(chunk[i..]), t, Tokenize(chunk[next..]));
  }

  lemma {:induction false} FirstToken(c: seq<Byte>, t: Token)
    requires c != [] && HeadOf(c) == Complete(t)
    ensures 1 <= |EncodeToken(t)| <= |c|
    ensures var rest := Tokenize(c[|EncodeToken(t)|..]); Tokenize(c) == Parse([t] + rest.tokens, rest.tail)
  {
    HeadIsPrefix(c);
  }

  lemma Regroup(whole: Parse, done: seq<Token>, here: Parse, t: Token, rest: Parse)
    requires whole == Parse(done + here.tokens, here.tail) && here == Parse([t] + rest.tokens, rest.tail)
    ensures whole == Parse(done + [t] + rest.tokens, rest.tail)
  {
    assert done + ([t] + rest.tokens) == done + [t] + rest.tokens;
  }

  lemma {:induction false} ReachedCut(chunk: seq<Byte>, i: nat, done: seq<Token>)
    requires i < |chunk| && Reached(chunk, i, done) && HeadOf(chunk[i..]).Cut?
    ensures Tokenize(chunk) == Parse(done, HeadOf(chunk[i..]).tail)
  {
    assert done + [] == done;
  }

  /** Mid-loop state: the tokens `done` are consumed, decoded and answered. */
  ghost predicate Decoded(chunk: seq<Byte>, i: nat, done: seq<Token>, out: seq<Byte>, replies: seq<Byte>) {
    Reached(chunk, i, done) && out == Payload(done) && replies == Encode(Declines(done))
  }

  /** Mid-loop state: everything is decoded except at most one last byte that will be kept as data. */
  ghost predicate Leaking(chunk: seq<Byte>, i: nat, out: seq<Byte>, replies: seq<Byte>) {
    && |chunk| - 1 <= i <= |chunk|
    && (i < |chunk| ==> chunk[i] != IAC)
    && out + chunk[i..] == Text(chunk)
    && replies == Answers(chunk)
  }

  lemma DecodedCut(chunk: seq<Byte>, i: nat, done: seq<Token>, out: seq<Byte>, replies: seq<Byte>)
    requires i < |chunk| && Decoded(chunk, i, done, out, replies) && HeadOf(chunk[i..]).Cut?
    ensures HeadOf(chunk[i..]).tail.CutVerb? ==> i + 1 <= |chunk| && Leaking(chunk, i + 1, out + [], replies + [])
    ensures !HeadOf(chunk[i..]).tail.CutVerb? ==> Leaking(chunk, |chunk|, out + [], replies + [])
  {
    ReachedCut(chunk, i, done);
    HeadIsPrefix(chunk[i..]);
    var tail := HeadOf(chunk[i..]).tail;
    assert out + [] == out && replies + [] == replies;
    if tail.CutVerb? {
      assert chunk[i..] == [IAC, tail.verb] && chunk[i + 1..] == [tail.verb];
    } else {
      assert chunk[|chunk|..] == [];
    }
  }

  lemma DecodedAll(chunk: seq<Byte>, done: seq<Token>, out: seq<Byte>, replies: seq<Byte>)
    requires Decoded(chunk, |chunk|, done, out, replies)
    ensures out == Text(chunk) && replies == Answers(chunk)
  {
    assert chunk[|chunk|..] == [];
    assert done + [] == done;
  }

  /** What one turn does with the token, or the cut sequence, at position `i`. */
  ghost predicate TurnOf(chunk: seq<Byte>, i: nat, next: nat, kept: seq<Byte>, reply: seq<Byte>)
    requires i < |chunk|
  {
    match HeadOf(chunk[i..])
    case Complete(t) => next == i + |EncodeToken(t)| && kept == Shown(t) && reply == Answered(t)
    case Cut(tail) => kept == [] && reply == [] && next == if tail.CutVerb? then i + 1 else |chunk|
  }

  ghost predicate UpTo(chunk: seq<Byte>, i: nat, done: seq<Token>, out: seq<Byte>, replies: seq<Byte>) {
    Decoded(chunk, i, done, out, replies) || Leaking(chunk, i, out, replies)
  }

  lemma {:induction false} Turned(chunk: seq<Byte>, i: nat, done: seq<Token>, out: seq<Byte>, replies: seq<Byte>,
               next: nat, kept: seq<Byte>, reply: seq<Byte>) returns (more: seq<Token>)
    requires i < |chunk| && UpTo(chunk, i, done, out, replies) && TurnOf(chunk, i, next, kept, reply)
    ensures i < next <= |chunk| && UpTo(chunk, next, more, out + kept, replies + reply)
  {
    more := done;
    if Leaking(chunk, i, out, replies) {
      TurnedLeak(chunk, i, out, replies, next, kept, reply);
    } else if HeadOf(chunk[i..]).Complete? {
      var t := HeadOf(chunk[i..]).token;
      ReachedAfter(chunk, i, done, t, next);
      TurnedComplete(chunk, next, done, t, out, replies);
      more := done + [t];
    } else {
      DecodedCut(chunk, i, done, out, replies);
    }
  }

  lemma {:induction false} TurnedLeak(chunk: seq<Byte>, i: nat, out: seq<Byte>, replies: seq<Byte>,
                                      next: nat, kept: seq<Byte>, reply: seq<Byte>)
    requires i < |chunk| && Leaking(chunk, i, out, replies) && TurnOf(chunk, i, next, kept, reply)
    ensures next == i + 1 && Leaking(chunk, next, out + kept, replies + reply)
  {
    LeakedLast(chunk, i, out, replies);
    assert kept == [chunk[i]] && reply == [];
  }

  lemma {:induction false} TurnedComplete(chunk: seq<Byte>, next: nat, done: seq<Token>, t: Token, out: seq<Byte>, replies: seq<Byte>)
    requires Reached(chunk, next, done + [t]) && out == Payload(done) && replies == Encode(Declines(done))
    ensures Decoded(chunk, next, done + [t], out + Shown(t), replies + Answered(t))
  {
    OneMoreToken(done, t);
  }

  /** The branches of one turn of the loop: where reading resumes, and what is kept and answered. */
  method ReadOne(chunk: seq<Byte>, i: nat) returns (next: nat, kept: seq<Byte>, reply: seq<Byte>)
    requires i < |chunk|
    ensures TurnOf(chunk, i, next, kept, reply)
    ensures chunk[i] == 255 && i + 2 < |chunk| && chunk[i + 1] == 251 ==> next == i + 3 && kept == [] && reply == [255, 254, chunk[i + 2]]
    ensures chunk[i] == 255 && i + 2 < |chunk| && chunk[i + 1] == 253 ==> next == i + 3 && kept == [] && reply == [255, 252, chunk[i + 2]]
    ensures reply == [] || (chunk[i] == 255 && i + 2 < |chunk| && (chunk[i + 1] == 251 || chunk[i + 1] == 253))
  {
    HeadAt(chunk, i);
    var n, b := |chunk|, chunk[i];
    kept, reply := [], [];
    if b != IAC {
      kept := [b];
      next := i + 1;
    } else if i + 1 >= n {
      next := i + 1;
    } else {
      var cmd := chunk[i + 1];
      if cmd == IAC {
        kept := [IAC];
        next := i + 2;
      } else if IsVerb(cmd) {
        if i + 2 >= n {
          next := i + 1;
        } else {
          var opt := chunk[i + 2];
          if cmd == WILL || cmd == DO {
            var decline := if cmd == WILL then DONT else WONT;
            reply := [IAC, decline, opt];
          }
          next := i + 3;
        }
      } else if cmd == SB {
        var end := FindTerminator(chunk, i + 2);
        next := if end.None? then n else end.value + 2;
      } else {
        next := i + 2;
      }
    }
  }

  /** `_handle_iac`: the text with every IAC sequence removed, and the bytes to answer with. */
  method HandleIac(chunk: seq<Byte>) returns (out: seq<Byte>, replies: seq<Byte>)
    ensures out == Text(chunk) && replies == Answers(chunk)
  {
    if IAC !in chunk {
      PlainText(chunk);
      return chunk, [];
    }
    out, replies := [], [];
    var i := 0;
    ghost var done: seq<Token> := [];
    assert chunk[0..] == chunk;
    while i < |chunk|
      invariant i <= |chunk|
      invariant UpTo(chunk, i, done, out, replies)
      decreases |chunk| - i
    {
      var next, kept, reply := ReadOne(chunk, i);
      done := Turned(chunk, i, done, out, replies, next, kept, reply);
      i, out, replies := next, out + kept, replies + reply;
    }
    if Decoded(chunk, i, done, out, replies) { DecodedAll(chunk, done, out, replies); }
  }

  lemma LeakedLast(chunk: seq<Byte>, i: nat, out: seq<Byte>, replies: seq<Byte>)
    requires i < |chunk| && Leaking(chunk, i, out, replies)
    ensures HeadOf(chunk[i..]) == Complete(Data(chunk[i]))
    ensures Leaking(chunk, i + 1, out + [chunk[i]], replies + [])
  {
    assert chunk[i..] == [chunk[i]] && chunk[i + 1..] == [];
  }

  lemma PlainText(chunk: seq<Byte>)
    requires IAC !in chunk
    ensures Text(chunk) == chunk && Answers(chunk) == []
  {
    PlainTokens(chunk);
    PlainMeaning(Tokenize(chunk).tokens);
  }

  lemma {:induction false} PlainTokens(chunk: seq<Byte>)
    requires IAC !in chunk
    ensures Tokenize(chunk).tail == Whole && Encode(Tokenize(chunk).tokens) == chunk
    ensures forall i :: 0 <= i < |Tokenize(chunk).tokens| ==> Tokenize(chunk).tokens[i].Data?
  {
    if chunk == [] {
    } else {
      PlainTokens(chunk[1..]);
      TokenizeSound(chunk);
    }
  }

  lemma {:induction false} PlainMeaning(ts: seq<Token>)
    requires forall i :: 0 <= i < |ts| ==> ts[i].Data?
    ensures Payload(ts) == Encode(ts) && Declines(ts) == []
  {
    if ts == [] {
    } else {
      PlainMeaning(ts[1..]);
    }
  }

  // ----------------------------------------------------------- main results

  /** Decoding inverts encoding: exactly the data bytes, exactly one refusal per WILL/DO, in order. */
  lemma DecoderInvertsEncoder(ts: seq<Token>)
    requires AllWellFormed(ts)
    ensures Text(Encode(ts)) == Payload(ts) && Answers(Encode(ts)) == Encode(Declines(ts))
  {
    TokenizeEncode(ts, Whole);
    assert Encode(ts) + TailBytes(Whole) == Encode(ts);
  }

  lemma EncodedAppend(ts: seq<Token>, p: Parse)
    ensures Encode(ts) + (Encode(p.tokens) + TailBytes(p.tail)) == Encode(ts + p.tokens) + TailBytes(p.tail)
  {
    EncodeAppend(ts, p.tokens);
    Associative(Encode(ts), Encode(p.tokens), TailBytes(p.tail));
  }

  lemma ParseAppend(ts: seq<Token>, rest: seq<Byte>)
    requires AllWellFormed(ts)
    ensures Tokenize(Encode(ts) + rest) == Parse(ts + Tokenize(rest).tokens, Tokenize(rest).tail)
  {
    TokenizeSound(rest);
    EncodedAppend(ts, Tokenize(rest));
    TokenizeEncode(ts + Tokenize(rest).tokens, Tokenize(rest).tail);
  }

  /** Splitting a stream at any token boundary changes neither the text nor the replies. */
  lemma SplitAtTokenBoundary(ts: seq<Token>, rest: seq<Byte>)
    requires AllWellFormed(ts)
    ensures Text(Encode(ts) + rest) == Text(Encode(ts)) + Text(rest)
    ensures Answers(Encode(ts) + rest) == Answers(Encode(ts)) + Answers(rest)
  {
    var p := Tokenize(rest);
    DecoderInvertsEncoder(ts);
    ParseAppend(ts, rest);
    PayloadAppend(ts, p.tokens);
    DeclinesAppend(ts, p.tokens);
    EncodeAppend(Declines(ts), Declines(p.tokens));
    Associative(Payload(ts), Payload(p.tokens), Leak(p.tail));
  }

  lemma Associative(a: seq<Byte>, b: seq<Byte>, c: seq<Byte>)
    ensures a + b + c == a + (b + c)
  {
  }

  lemma {:induction false} DeclinesAreSilent(ts: seq<Token>)
    ensures AllWellFormed(Declines(ts)) && Payload(Declines(ts)) == [] && Declines(Declines(ts)) == []
  {
    if ts == [] {
    } else {
      DeclinesAreSilent(ts[1..]);
      var ds := Declines(ts);
      if ds != Declines(ts[1..]) {
        assert ds[1..] == Declines(ts[1..]);
      }
    }
  }

  /** Negotiation cannot loop: feeding the replies back yields no text and no further reply. */
  lemma RepliesAreFinal(chunk: seq<Byte>)
    ensures Text(Answers(chunk)) == [] && Answers(Answers(chunk)) == []
  {
    DeclinesAreSilent(Tokenize(chunk).tokens);
    DecoderInvertsEncoder(Declines(Tokenize(chunk).tokens));
  }

  /**
   What a cut costs, for every stream: a chunk ending inside an IAC sequence yields the
   text of its complete tokens, plus one stray command byte exactly when the cut falls
   between a negotiation verb and its option.
   */
  lemma CutStream(ts: seq<Token>, tail: Tail)
    requires AllWellFormed(ts) && WellFormedTail(tail)
    ensures Answers(Encode(ts) + TailBytes(tail)) == Encode(Declines(ts))
    ensures Text(Encode(ts) + TailBytes(tail)) == Payload(ts) <==> !tail.CutVerb?
    ensures tail.CutVerb? ==> Text(Encode(ts) + TailBytes(tail)) == Payload(ts) + [tail.verb]
  {
    TokenizeEncode(ts, tail);
    assert |Payload(ts) + Leak(tail)| == |Payload(ts)| + |Leak(tail)|;
  }

  // ------------------------------------------------- the decoder in bytes

  lemma {:induction false} OneThenRest(t: Token, rest: seq<Byte>)
    requires WellFormed(t)
    ensures Text(EncodeToken(t) + rest) == Shown(t) + Text(rest)
    ensures Answers(EncodeToken(t) + rest) == Answered(t) + Answers(rest)
  {
    assert [t][1..] == [] && Encode([t]) == EncodeToken(t);
    SplitAtTokenBoundary([t], rest);
    DecoderInvertsEncoder([t]);
    MeaningOfOne(t);
  }

  /**
   What the decoder does with data and negotiations, in bytes and with anything after them: a byte
   other than 255 is text, a doubled 255 is one 255, and an option is never shown. WILL (251) is
   answered with DONT (254), DO (253) with WONT (252), and WONT and DONT not at all.
   */
  lemma NegotiationInBytes(b: Byte, option: Byte, rest: seq<Byte>)
    ensures b != 255 ==> Text([b] + rest) == [b] + Text(rest) && Answers([b] + rest) == Answers(rest)
    ensures Text([255, 255] + rest) == [255] + Text(rest) && Answers([255, 255] + rest) == Answers(rest)
    ensures Text([255, 251, option] + rest) == Text(rest) && Answers([255, 251, option] + rest) == [255, 254, option] + Answers(rest)
    ensures Text([255, 253, option] + rest) == Text(rest) && Answers([255, 253, option] + rest) == [255, 252, option] + Answers(rest)
    ensures Text([255, 252, option] + rest) == Text(rest) && Answers([255, 252, option] + rest) == Answers(rest)
    ensures Text([255, 254, option] + rest) == Text(rest) && Answers([255, 254, option] + rest) == Answers(rest)
  {
    if b != 255 { OneThenRest(Data(b), rest); }
    OneThenRest(Literal255, rest);
    OneThenRest(Negotiate(251, option), rest);
    OneThenRest(Negotiate(253, option), rest);
    OneThenRest(Negotiate(252, option), rest);
    OneThenRest(Negotiate(254, option), rest);
  }

  /**
   And with the other commands: two bytes are dropped, and a subnegotiation from 255 250 through the
   first 255 240 after it, without an answer.
   */
  lemma CommandsInBytes(code: Byte, body: seq<Byte>, rest: seq<Byte>)
    ensures code < 250 ==> Text([255, code] + rest) == Text(rest) && Answers([255, code] + rest) == Answers(rest)
    ensures (forall i :: 0 <= i < |body| ==> !((body + [255, 240])[i] == 255 && (body + [255, 240])[i + 1] == 240)) ==>
              && Text([255, 250] + body + [255, 240] + rest) == Text(rest)
              && Answers([255, 250] + body + [255, 240] + rest) == Answers(rest)
  {
    if code < 250 { OneThenRest(Command(code), rest); }
    if forall i :: 0 <= i < |body| ==> !((body + [255, 240])[i] == 255 && (body + [255, 240])[i + 1] == 240) {
      OneThenRest(Subnegotiation(body), rest);
    }
  }

  /** A chunk cut inside a sequence: nothing is shown and nothing answered, except that a cut negotiation shows its verb. */
  lemma CutsInBytes(verb: Byte, body: seq<Byte>)
    ensures Text([]) == [] && Answers([]) == []
    ensures Text([255]) == [] && Answers([255]) == []
    ensures 251 <= verb <= 254 ==> Text([255, verb]) == [verb] && Answers([255, verb]) == []
    ensures (forall i :: 0 <= i < |body| - 1 ==> !(body[i] == 255 && body[i + 1] == 240)) ==>
              Text([255, 250] + body) == [] && Answers([255, 250] + body) == []
  {
    TokenizeTail(LoneIac);
    if 251 <= verb <= 254 { TokenizeTail(CutVerb(verb)); }
    if forall i :: 0 <= i < |body| - 1 ==> !(body[i] == 255 && body[i + 1] == 240) {
      TokenizeTail(OpenSubnegotiation(body));
    }
  }
}
