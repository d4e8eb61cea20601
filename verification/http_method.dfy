/** The method of a request, letter by letter: which words the table of s_req_method takes for which
    method. */
module HttpMethod {
  import opened HttpTypes
  import opened HttpStep
  import opened HttpRun
  import opened HttpBody

  /** The method that is guessed after the first k letters of a name. */
  function GuessAt(m: Method, k: nat): Method {
    match m
    case CHECKOUT => if k < 2 then CONNECT else m
    case COPY => if k < 3 then CONNECT else m
    case MOVE => if k < 2 then MKCOL else m
    case MERGE => if k < 2 then MKCOL else m
    case MSEARCH => if k < 2 then MKCOL else m
    case MKACTIVITY => if k < 3 then MKCOL else m
    case SEARCH => if k < 2 then SUBSCRIBE else m
    case PUT => if k < 2 then POST else m
    case PATCH => if k < 2 then POST else m
    case PURGE => if k < 2 then POST else if k < 3 then PUT else m
    case PROPFIND => if k < 2 then POST else m
    case PROPPATCH => if k < 2 then POST else if k < 5 then PROPFIND else m
    case UNSUBSCRIBE => if k < 3 then UNLOCK else m
    case _ => m
  }

  /** The methods whose third letter is not looked at. */
  predicate Lax(m: Method) {
    m !in {CONNECT, COPY, MKCOL, MKACTIVITY, SUBSCRIBE, PURGE, UNSUBSCRIBE}
  }

  /** A byte that may stand for the letter at place i: the letter, or, at the third place, anything but zero
      and what makes another method of it. */
  predicate Letter(m: Method, i: nat, b: byte)
    requires i < |Name(m)|
  {
    || b == Name(m)[i] as int
    || (i == 2 && Lax(m) && b != 0 && !(m.PUT? && b == 'R' as int) && !(m.UNLOCK? && b == 'S' as int))
  }

  /** The first letters of the name. */
  ghost predicate Begun(m: Method, t: seq<byte>) {
    0 < |t| <= |Name(m)| && forall i :: 0 <= i < |t| ==> Letter(m, i, t[i])
  }

  ghost predicate Spelled(m: Method, t: seq<byte>) {
    |t| == |Name(m)| && Begun(m, t)
  }

  // ---- one letter ----

  function AtLetter(p: Parser, m: Method, i: nat): Parser {
    p.(state := ReqMethod, meth := m, index := i)
  }

  lemma SecondLetter(p: Parser, m: Method, b: byte)
    requires Letter(m, 1, b)
    ensures MethodStep(AtLetter(p, GuessAt(m, 1), 1), b) == Go(AtLetter(p, GuessAt(m, 2), 2), ReqMethod)
  {
  }

  lemma ThirdLetter(p: Parser, m: Method, b: byte)
    requires |Name(m)| > 2 && Letter(m, 2, b)
    ensures MethodStep(AtLetter(p, GuessAt(m, 2), 2), b) == Go(AtLetter(p, GuessAt(m, 3), 3), ReqMethod)
  {
  }

  lemma FourthLetter(p: Parser, b: byte)
    requires Letter(PROPPATCH, 3, b)
    ensures MethodStep(AtLetter(p, PROPFIND, 3), b) == Go(AtLetter(p, PROPFIND, 4), ReqMethod)
  {
  }

  lemma FifthLetter(p: Parser, b: byte)
    requires Letter(PROPPATCH, 4, b)
    ensures MethodStep(AtLetter(p, PROPFIND, 4), b) == Go(AtLetter(p, PROPPATCH, 5), ReqMethod)
  {
  }

  lemma SameLetter(p: Parser, m: Method, i: nat, b: byte)
    requires i < |Name(m)| && b == Name(m)[i] as int && b != 0 && b != SP
    ensures MethodStep(AtLetter(p, m, i), b) == Go(AtLetter(p, m, i + 1), ReqMethod)
  {
    hide Name, Rematch;
  }

  /** No name has a space or a zero in it. */
  lemma NameLetters(m: Method, i: nat)
    requires i < |Name(m)|
    ensures Name(m)[i] as int != 0 && Name(m)[i] as int != SP && Name(m)[i] as int < 256
  {
  }

  lemma LateGuess(m: Method, i: nat)
    requires 3 <= i
    ensures GuessAt(m, i) == if m.PROPPATCH? && i < 5 then PROPFIND else m
  {
  }

  lemma LaterLetter(p: Parser, m: Method, i: nat, b: byte)
    requires 3 <= i < |Name(m)| && Letter(m, i, b)
    ensures MethodStep(AtLetter(p, GuessAt(m, i), i), b) == Go(AtLetter(p, GuessAt(m, i + 1), i + 1), ReqMethod)
  {
    hide Name, MethodStep, GuessAt;
    LateGuess(m, i);
    LateGuess(m, i + 1);
    if m.PROPPATCH? && i == 3 {
      FourthLetter(p, b);
    } else if m.PROPPATCH? && i == 4 {
      FifthLetter(p, b);
    } else {
      NameLetters(m, i);
      SameLetter(p, m, i, b);
    }
  }

  lemma NextLetter(p: Parser, m: Method, i: nat, b: byte)
    requires 0 < i < |Name(m)| && Letter(m, i, b)
    ensures MethodStep(AtLetter(p, GuessAt(m, i), i), b) == Go(AtLetter(p, GuessAt(m, i + 1), i + 1), ReqMethod)
  {
    hide Name, MethodStep, GuessAt, Letter;
    if i == 1 {
      SecondLetter(p, m, b);
    } else if i == 2 {
      ThirdLetter(p, m, b);
    } else {
      LaterLetter(p, m, i, b);
    }
  }

  lemma NameEnd(p: Parser, m: Method)
    ensures MethodStep(AtLetter(p, GuessAt(m, |Name(m)|), |Name(m)|), SP)
      == Go(AtLetter(p, m, |Name(m)| + 1), SpacesBeforeUrl)
  {
  }

  // ---- and conversely ----

  /** Where one guess is given up for another, and the letter that does it. */
  predicate Turns(m: Method, n: Method, i: nat, b: byte) {
    match n
    case CHECKOUT => m.CONNECT? && i == 1 && Is(b, 'H')
    case COPY => m.CONNECT? && i == 2 && Is(b, 'P')
    case MOVE => m.MKCOL? && i == 1 && Is(b, 'O')
    case MERGE => m.MKCOL? && i == 1 && Is(b, 'E')
    case MSEARCH => m.MKCOL? && i == 1 && Is(b, '-')
    case MKACTIVITY => m.MKCOL? && i == 2 && Is(b, 'A')
    case SEARCH => m.SUBSCRIBE? && i == 1 && Is(b, 'E')
    case PROPFIND => m.POST? && i == 1 && Is(b, 'R')
    case PUT => m.POST? && i == 1 && Is(b, 'U')
    case PATCH => m.POST? && i == 1 && Is(b, 'A')
    case PURGE => m.PUT? && i == 2 && Is(b, 'R')
    case UNSUBSCRIBE => m.UNLOCK? && i == 2 && Is(b, 'S')
    case PROPPATCH => m.PROPFIND? && i == 4 && Is(b, 'P')
    case _ => false
  }

  lemma Rematched(m: Method, i: nat, b: byte)
    requires b != 0 && b as int != Matcher(Name(m), i) && GuessAt(m, i) == m && Rematch(m, i, b).0.Ok?
    ensures var n := Rematch(m, i, b).1;
      Turns(m, n, i, b) || (n == m && i == 2 && Lax(m) && !(m.PUT? && Is(b, 'R')) && !(m.UNLOCK? && Is(b, 'S')))
  {
    hide Name;
  }

  /** The names are the same up to there. */
  lemma Shared(m: Method, n: Method, i: nat, b: byte, t: seq<byte>)
    requires Begun(m, t) && |t| == i && Turns(m, n, i, b)
    ensures Begun(n, t + [b]) && GuessAt(n, i + 1) == n
  {
  }

  lemma LongNames(m: Method)
    ensures |Name(m)| > 2
  {
  }

  lemma BegunMore(m: Method, t: seq<byte>, b: byte)
    requires Begun(m, t) && |t| < |Name(m)| && Letter(m, |t|, b)
    ensures Begun(m, t + [b])
  {
    hide Name, Letter;
  }

  /** What a byte that is taken does. */
  lemma LetterTaken(p: Parser, m: Method, t: seq<byte>, b: byte)
    requires Begun(m, t) && GuessAt(m, |t|) == m && MethodStep(AtLetter(p, m, |t|), b).ctl.Next?
    ensures var o := MethodStep(AtLetter(p, m, |t|), b);
      var n := o.p.meth;
      || (b == SP && n == m && Spelled(m, t) && o == Go(AtLetter(p, m, |t| + 1), SpacesBeforeUrl))
      || (o == Go(AtLetter(p, n, |t| + 1), ReqMethod) && Begun(n, t + [b]) && GuessAt(n, |t| + 1) == n)
  {
    hide Name, Rematch, Lax, Turns, GuessAt;
    LongNames(m);
    GuessStays(m, |t|);
    if b as int == Matcher(Name(m), |t|) {
      if b != 0 {
        BegunMore(m, t, b);
      }
    } else if !(b == SP && Matcher(Name(m), |t|) == 0) {
      Rematched(m, |t|, b);
      var n := Rematch(m, |t|, b).1;
      if Turns(m, n, |t|, b) {
        Shared(m, n, |t|, b, t);
      } else {
        BegunMore(m, t, b);
      }
    } else {
      MatcherEnd(m, |t|);
    }
  }

  lemma GuessStays(m: Method, k: nat)
    requires GuessAt(m, k) == m
    ensures GuessAt(m, k + 1) == m
  {
  }

  /** The terminating zero is behind the name only. */
  lemma MatcherEnd(m: Method, i: nat)
    requires Matcher(Name(m), i) == 0
    ensures |Name(m)| <= i
  {
    hide Name;
    if i < |Name(m)| {
      NameLetters(m, i);
    }
  }

  // ---- words and names ----

  predicate IsName(m: Method, t: seq<byte>) {
    |t| == |Name(m)| && forall i :: 0 <= i < |t| ==> t[i] as int == Name(m)[i] as int
  }

  function Bytes(m: Method): (t: seq<byte>)
    ensures IsName(m, t)
  {
    seq(|Name(m)|, i requires 0 <= i < |Name(m)| => LetterByte(m, i))
  }

  function LetterByte(m: Method, i: nat): (b: byte)
    requires i < |Name(m)|
    ensures b as int == Name(m)[i] as int
  {
    NameLetters(m, i);
    Name(m)[i] as int
  }

  /** A name with another third letter. */
  lemma Misspelt(m: Method)
    requires Lax(m)
    ensures var t := Bytes(m)[2 := 'X' as int]; Spelled(m, t) && !IsName(m, t)
  {
    hide Name;
    LongNames(m);
    NoThirdX(m);
    var t := Bytes(m)[2 := 'X' as int];
    forall i | 0 <= i < |t| ensures Letter(m, i, t[i]) {
      assert i != 2 ==> t[i] == Bytes(m)[i];
    }
  }

  lemma NoThirdX(m: Method)
    ensures |Name(m)| > 2 && Name(m)[2] != 'X'
  {
  }

  /** Every name is taken for its method; and nothing else is, if and only if the third letter is looked at. */
  lemma NamesExactly(m: Method)
    ensures Spelled(m, Bytes(m))
    ensures (forall t :: Spelled(m, t) ==> IsName(m, t)) <==> !Lax(m)
  {
    hide Name, Lax;
    LongNames(m);
    if Lax(m) {
      Misspelt(m);
    }
    assert Spelled(m, Bytes(m)) by {
      forall i | 0 <= i < |Bytes(m)| ensures Letter(m, i, Bytes(m)[i]) {
      }
    }
    if !Lax(m) {
      forall t | Spelled(m, t) ensures IsName(m, t) {
        forall i | 0 <= i < |t| ensures t[i] as int == Name(m)[i] as int {
          assert Letter(m, i, t[i]);
        }
      }
    }
  }
}
