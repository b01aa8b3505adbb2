/** helpers/code.go: short codes drawn from an alphabet without easily confused letters. */
module Code {

  /** The symbols codes are made of: the letters A to Z without I, O and Q. */
  const Symbols: string := "ABCDEFGHJKLMNPRSTUVWXYZ"

  /**
   * NewCode fills a rune slice of `length` entries, entry i being
   * symbols[rand.Intn(len(symbols))]; `draws` are the values the successive
   * rand.Intn calls return.
   */
  method NewCode(length: int, draws: seq<int>) returns (code: string)
    requires length >= 0                     // make([]rune, length) panics on a negative length
    requires |draws| == length               // one draw per entry
    requires forall i :: 0 <= i < |draws| ==> 0 <= draws[i] < |Symbols|   // rand.Intn(n) is in [0, n)
    ensures |code| == length
    ensures forall i :: 0 <= i < length ==> code[i] == Symbols[draws[i]]
    ensures forall i :: 0 <= i < length ==> code[i] in Symbols
  {
    var b := new char[length];
    for i := 0 to length
      invariant forall k :: 0 <= k < i ==> b[k] == Symbols[draws[k]]
    {
      b[i] := Symbols[draws[i]];
    }
    code := b[..];
  }

  /**
   * Symbols holds 23 distinct upper-case letters, in alphabetical order, and
   * an upper-case letter is one of them exactly when it is not I, O or Q.
   */
  lemma SymbolsAreTheUnconfusableLetters()
    ensures |Symbols| == 23
    ensures forall i, j :: 0 <= i < j < |Symbols| ==> Symbols[i] < Symbols[j]
    ensures forall c :: 'A' <= c <= 'Z' ==> (c in Symbols <==> c != 'I' && c != 'O' && c != 'Q')
  {
  }

  /** A code made of symbols contains no I, O or Q. */
  lemma CodeHasNoConfusableLetter(code: string)
    requires forall i :: 0 <= i < |code| ==> code[i] in Symbols
    ensures 'I' !in code && 'O' !in code && 'Q' !in code
  {
  }
}
