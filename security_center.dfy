/** Model of SecurityCenterImpl: a "cipher" that XORs every UTF-16 code unit of a
    string with the fixed key 'w'. Decryption is the same transform. */
module SecurityCenter {

  /** A Java `char`: one UTF-16 code unit. */
  type Char = bv16

  /** A Java `String`, seen as the sequence of its code units. */
  type JString = seq<Char>

  /** SECRET_CODE, the character 'w'. */
  const SECRET_CODE: Char := 0x77

  /** Java's binary numeric promotion of `c ^ k` on two chars: both operands are
      zero-extended to a 32-bit int and XORed. The result never reaches bit 16. */
  function IntXor(c: Char, k: Char): (r: bv32)
    ensures r < 0x1_0000
    ensures r == (c ^ k) as bv32
  {
    (c as bv32) ^ (k as bv32)
  }

  /** Java's `(char)` cast of an int: keep the low 16 bits. An int below 2^16
      passes through unchanged. */
  function NarrowToChar(w: bv32): (r: Char)
    ensures r as bv32 == w & 0xFFFF
    ensures w < 0x1_0000 ==> r as bv32 == w
  {
    (w & 0xFFFF) as bv16
  }

  /** The compound assignment `c ^= k`, which is `c = (char)(c ^ k)`: since the
      promoted XOR fits in a char, the narrowing loses nothing and the result is
      the plain 16-bit XOR. */
  function CompoundXor(c: Char, k: Char): (r: Char)
    ensures r == c ^ k
  {
    NarrowToChar(IntXor(c, k))
  }

  /** The ciphertext of `s`: each code unit transformed by itself, left to right. */
  function Xored(s: JString): (r: JString)
    ensures |r| == |s|
  {
    if s == [] then [] else [CompoundXor(s[0], SECRET_CODE)] + Xored(s[1..])
  }

  /** Position `i` of the ciphertext depends on position `i` of the input only. */
  lemma {:induction false} XoredAt(s: JString, i: nat)
    requires i < |s|
    ensures Xored(s)[i] == s[i] ^ SECRET_CODE
  {
    if i > 0 {
      XoredAt(s[1..], i - 1);
    }
  }

  /** The transform works on each part of a string separately. */
  lemma {:induction false} XoredConcat(a: JString, b: JString)
    ensures Xored(a + b) == Xored(a) + Xored(b)
  {
    if a == [] {
      assert a + b == b;
    } else {
      assert (a + b)[1..] == a[1..] + b;
      XoredConcat(a[1..], b);
    }
  }

  /** Applying the transform twice gives back the input: it is an involution. */
  lemma {:induction false} XoredInvolution(s: JString)
    ensures Xored(Xored(s)) == s
  {
    if s != [] {
      var t := Xored(s);
      assert t[1..] == Xored(s[1..]);
      XoredInvolution(s[1..]);
      assert Xored(t) == [CompoundXor(t[0], SECRET_CODE)] + Xored(t[1..]);
    }
  }

  /** Two strings with the same ciphertext are equal. */
  lemma XoredInjective(a: JString, b: JString)
    requires Xored(a) == Xored(b)
    ensures a == b
  {
    XoredInvolution(a);
    XoredInvolution(b);
  }

  /** Because the key is not zero, the ciphertext differs from the input at every
      position; in particular no non-empty string is its own ciphertext. */
  lemma XoredChangesEveryUnit(s: JString)
    ensures forall i :: 0 <= i < |s| ==> Xored(s)[i] != s[i]
    ensures s != [] ==> Xored(s) != s
  {
    forall i | 0 <= i < |s|
      ensures Xored(s)[i] != s[i]
    {
      XoredAt(s, i);
    }
    if s != [] {
      assert Xored(s)[0] != s[0];
    }
  }

  /** encrypt: copy the string into a char array, XOR every element in place with
      SECRET_CODE, and build a new string from the array. */
  method Encrypt(content: JString) returns (r: JString)
    ensures |r| == |content|
    ensures forall i :: 0 <= i < |content| ==> r[i] == content[i] ^ SECRET_CODE
    ensures r == Xored(content)
  {
    var chars := new Char[|content|](i requires 0 <= i < |content| => content[i]);
    for i := 0 to chars.Length
      invariant forall j :: 0 <= j < i ==> chars[j] == content[j] ^ SECRET_CODE
      invariant forall j :: i <= j < chars.Length ==> chars[j] == content[j]
    {
      chars[i] := CompoundXor(chars[i], SECRET_CODE);
    }
    r := chars[..];
    forall j | 0 <= j < |r|
      ensures r[j] == Xored(content)[j]
    {
      XoredAt(content, j);
    }
  }

  /** decrypt: the same transform as encrypt, so it returns the plaintext of any
      ciphertext it is given. */
  method Decrypt(password: JString) returns (r: JString)
    ensures r == Xored(password)
    ensures forall plain :: Xored(plain) == password ==> r == plain
  {
    r := Encrypt(password);
    forall plain | Xored(plain) == password
      ensures r == plain
    {
      XoredInvolution(plain);
    }
  }

  /** The client's scenario: encrypt a message, then decrypt the ciphertext. */
  method EncryptThenDecrypt(msg: JString) returns (encryptMsg: JString, decryptMsg: JString)
    ensures encryptMsg == Xored(msg)
    ensures msg != [] ==> encryptMsg != msg
    ensures decryptMsg == msg
  {
    encryptMsg := Encrypt(msg);
    XoredChangesEveryUnit(msg);
    decryptMsg := Decrypt(encryptMsg);
  }

  /** The sample message the client sends, "Hello, I am Spike!", as the code
      units of its Java string literal. */
  const SAMPLE_MESSAGE: JString := [
    0x48, 0x65, 0x6C, 0x6C, 0x6F, 0x2C, 0x20, 0x49, 0x20,
    0x61, 0x6D, 0x20, 0x53, 0x70, 0x69, 0x6B, 0x65, 0x21]

  /** On the sample message the ciphertext starts with '?' (0x48 ^ 0x77 = 0x3F),
      differs from the plaintext and decrypts back to it. */
  lemma SampleMessageRoundTrip()
    ensures |Xored(SAMPLE_MESSAGE)| == 18
    ensures Xored(SAMPLE_MESSAGE)[0] == 0x3F
    ensures Xored(SAMPLE_MESSAGE) != SAMPLE_MESSAGE
    ensures Xored(Xored(SAMPLE_MESSAGE)) == SAMPLE_MESSAGE
  {
    XoredAt(SAMPLE_MESSAGE, 0);
    XoredChangesEveryUnit(SAMPLE_MESSAGE);
    XoredInvolution(SAMPLE_MESSAGE);
  }
}
