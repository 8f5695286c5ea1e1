/** Keys: the engine's 60 key constants, each declared with a java.awt.event.KeyEvent virtual
    key code, and the reverse lookup from a code to its constant. */
module Keys {
  import opened Wrappers

  /** The constants in declaration order: letters, digits, arrows, editing keys, modifiers,
      function keys. */
  datatype Key =
      A | B | C | D | E | F | G | H | I | J | K | L | M
    | N | O | P | Q | R | S | T | U | V | W | X | Y | Z
    | Num0 | Num1 | Num2 | Num3 | Num4 | Num5 | Num6 | Num7 | Num8 | Num9 | ArrowUp | ArrowDown | ArrowLeft
    | ArrowRight | Space | Enter | Escape | Backspace | Tab | Shift | Ctrl | Alt | F1 | F2 | F3 | F4
    | F5 | F6 | F7 | F8 | F9 | F10 | F11 | F12

  /** getKeyCode: the KeyEvent.VK_* code each constant is declared with (VK_A..VK_Z are
      65..90, VK_0..VK_9 are 48..57, VK_F1..VK_F12 are 112..123). */
  function KeyCode(k: Key): (code: int)
    ensures 8 <= code <= 123
  {
    match k
      case A => 65
      case B => 66
      case C => 67
      case D => 68
      case E => 69
      case F => 70
      case G => 71
      case H => 72
      case I => 73
      case J => 74
      case K => 75
      case L => 76
      case M => 77
      case N => 78
      case O => 79
      case P => 80
      case Q => 81
      case R => 82
      case S => 83
      case T => 84
      case U => 85
      case V => 86
      case W => 87
      case X => 88
      case Y => 89
      case Z => 90
      case Num0 => 48
      case Num1 => 49
      case Num2 => 50
      case Num3 => 51
      case Num4 => 52
      case Num5 => 53
      case Num6 => 54
      case Num7 => 55
      case Num8 => 56
      case Num9 => 57
      case ArrowUp => 38
      case ArrowDown => 40
      case ArrowLeft => 37
      case ArrowRight => 39
      case Space => 32
      case Enter => 10
      case Escape => 27
      case Backspace => 8
      case Tab => 9
      case Shift => 16
      case Ctrl => 17
      case Alt => 18
      case F1 => 112
      case F2 => 113
      case F3 => 114
      case F4 => 115
      case F5 => 116
      case F6 => 117
      case F7 => 118
      case F8 => 119
      case F9 => 120
      case F10 => 121
      case F11 => 122
      case F12 => 123
  }

  /** values(): every constant, in declaration order, one run of the declaration at a time. */
  const AllKeys: seq<Key> := LetterKeys + DigitKeys + OtherKeyList + FunctionKeyList

  const LetterKeys: seq<Key> := [A, B, C, D, E, F, G, H, I, J, K, L, M, N, O, P, Q, R, S, T, U, V, W, X, Y, Z]
  const DigitKeys: seq<Key> := [Num0, Num1, Num2, Num3, Num4, Num5, Num6, Num7, Num8, Num9]
  const OtherKeyList: seq<Key> := [ArrowUp, ArrowDown, ArrowLeft, ArrowRight, Space, Enter, Escape, Backspace, Tab, Shift, Ctrl, Alt]
  const FunctionKeyList: seq<Key> := [F1, F2, F3, F4, F5, F6, F7, F8, F9, F10, F11, F12]

  /** The code table read the other way round, one group of constants at a time; every
      other code has no constant. */
  function KeyForCode(code: int): Option<Key>
  {
    if 65 <= code <= 90 then LetterForCode(code)
    else if 48 <= code <= 57 then DigitForCode(code)
    else if 112 <= code <= 123 then FunctionKeyForCode(code)
    else OtherKeyForCode(code)
  }

  /** VK_A..VK_Z. */
  function LetterForCode(code: int): Option<Key>
  {
    if code == 65 then Some(A)
    else if code == 66 then Some(B)
    else if code == 67 then Some(C)
    else if code == 68 then Some(D)
    else if code == 69 then Some(E)
    else if code == 70 then Some(F)
    else if code == 71 then Some(G)
    else if code == 72 then Some(H)
    else if code == 73 then Some(I)
    else if code == 74 then Some(J)
    else if code == 75 then Some(K)
    else if code == 76 then Some(L)
    else if code == 77 then Some(M)
    else if code == 78 then Some(N)
    else if code == 79 then Some(O)
    else if code == 80 then Some(P)
    else if code == 81 then Some(Q)
    else if code == 82 then Some(R)
    else if code == 83 then Some(S)
    else if code == 84 then Some(T)
    else if code == 85 then Some(U)
    else if code == 86 then Some(V)
    else if code == 87 then Some(W)
    else if code == 88 then Some(X)
    else if code == 89 then Some(Y)
    else if code == 90 then Some(Z)
    else None
  }

  /** VK_0..VK_9. */
  function DigitForCode(code: int): Option<Key>
  {
    if code == 48 then Some(Num0)
    else if code == 49 then Some(Num1)
    else if code == 50 then Some(Num2)
    else if code == 51 then Some(Num3)
    else if code == 52 then Some(Num4)
    else if code == 53 then Some(Num5)
    else if code == 54 then Some(Num6)
    else if code == 55 then Some(Num7)
    else if code == 56 then Some(Num8)
    else if code == 57 then Some(Num9)
    else None
  }

  /** The arrows, the editing keys and the modifiers. */
  function OtherKeyForCode(code: int): Option<Key>
  {
    if code == 38 then Some(ArrowUp)
    else if code == 40 then Some(ArrowDown)
    else if code == 37 then Some(ArrowLeft)
    else if code == 39 then Some(ArrowRight)
    else if code == 32 then Some(Space)
    else if code == 10 then Some(Enter)
    else if code == 27 then Some(Escape)
    else if code == 8 then Some(Backspace)
    else if code == 9 then Some(Tab)
    else if code == 16 then Some(Shift)
    else if code == 17 then Some(Ctrl)
    else if code == 18 then Some(Alt)
    else None
  }

  /** VK_F1..VK_F12. */
  function FunctionKeyForCode(code: int): Option<Key>
  {
    if code == 112 then Some(F1)
    else if code == 113 then Some(F2)
    else if code == 114 then Some(F3)
    else if code == 115 then Some(F4)
    else if code == 116 then Some(F5)
    else if code == 117 then Some(F6)
    else if code == 118 then Some(F7)
    else if code == 119 then Some(F8)
    else if code == 120 then Some(F9)
    else if code == 121 then Some(F10)
    else if code == 122 then Some(F11)
    else if code == 123 then Some(F12)
    else None
  }

  /** A code found in the table is the code its constant is declared with. */
  lemma KeyForCodeSound(code: int)
    ensures KeyForCode(code).Some? ==> KeyCode(KeyForCode(code).value) == code
  {
    if 65 <= code <= 90 {
      LettersSound(code);
    } else if 48 <= code <= 57 {
      DigitsSound(code);
    } else if 112 <= code <= 123 {
      FunctionKeysSound(code);
    } else {
      OtherKeysSound(code);
    }
  }

  lemma LettersSound(code: int)
    ensures LetterForCode(code).Some? ==> KeyCode(LetterForCode(code).value) == code
  {
    var r := LetterForCode(code);
    if r.Some? {
      match r.value
        case A => assert code == 65;
        case B => assert code == 66;
        case C => assert code == 67;
        case D => assert code == 68;
        case E => assert code == 69;
        case F => assert code == 70;
        case G => assert code == 71;
        case H => assert code == 72;
        case I => assert code == 73;
        case J => assert code == 74;
        case K => assert code == 75;
        case L => assert code == 76;
        case M => assert code == 77;
        case N => assert code == 78;
        case O => assert code == 79;
        case P => assert code == 80;
        case Q => assert code == 81;
        case R => assert code == 82;
        case S => assert code == 83;
        case T => assert code == 84;
        case U => assert code == 85;
        case V => assert code == 86;
        case W => assert code == 87;
        case X => assert code == 88;
        case Y => assert code == 89;
        case Z => assert code == 90;
        case _ =>
    }
  }

  lemma DigitsSound(code: int)
    ensures DigitForCode(code).Some? ==> KeyCode(DigitForCode(code).value) == code
  {
    var r := DigitForCode(code);
    if r.Some? {
      match r.value
        case Num0 => assert code == 48;
        case Num1 => assert code == 49;
        case Num2 => assert code == 50;
        case Num3 => assert code == 51;
        case Num4 => assert code == 52;
        case Num5 => assert code == 53;
        case Num6 => assert code == 54;
        case Num7 => assert code == 55;
        case Num8 => assert code == 56;
        case Num9 => assert code == 57;
        case _ =>
    }
  }

  lemma OtherKeysSound(code: int)
    ensures OtherKeyForCode(code).Some? ==> KeyCode(OtherKeyForCode(code).value) == code
  {
    var r := OtherKeyForCode(code);
    if r.Some? {
      match r.value
        case ArrowUp => assert code == 38;
        case ArrowDown => assert code == 40;
        case ArrowLeft => assert code == 37;
        case ArrowRight => assert code == 39;
        case Space => assert code == 32;
        case Enter => assert code == 10;
        case Escape => assert code == 27;
        case Backspace => assert code == 8;
        case Tab => assert code == 9;
        case Shift => assert code == 16;
        case Ctrl => assert code == 17;
        case Alt => assert code == 18;
        case _ =>
    }
  }

  lemma FunctionKeysSound(code: int)
    ensures FunctionKeyForCode(code).Some? ==> KeyCode(FunctionKeyForCode(code).value) == code
  {
    var r := FunctionKeyForCode(code);
    if r.Some? {
      match r.value
        case F1 => assert code == 112;
        case F2 => assert code == 113;
        case F3 => assert code == 114;
        case F4 => assert code == 115;
        case F5 => assert code == 116;
        case F6 => assert code == 117;
        case F7 => assert code == 118;
        case F8 => assert code == 119;
        case F9 => assert code == 120;
        case F10 => assert code == 121;
        case F11 => assert code == 122;
        case F12 => assert code == 123;
        case _ =>
    }
  }

  /** The table is a bijection between the constants and their codes: looking up a
      constant's code gives the constant back. */
  lemma KeyForCodeInverts(k: Key)
    ensures KeyForCode(KeyCode(k)) == Some(k)
  {
    match GroupOf(k)
      case Letters => LettersInvert(k);
      case Digits => DigitsInvert(k);
      case OtherKeys => OtherKeysInvert(k);
      case FunctionKeys => FunctionKeysInvert(k);
  }

  lemma LettersInvert(k: Key)
    requires GroupOf(k) == Letters
    ensures KeyForCode(KeyCode(k)) == Some(k)
  {
    if KeyCode(k) < 78 {
      FirstLettersInvert(k);
    } else {
      LastLettersInvert(k);
    }
  }

  lemma FirstLettersInvert(k: Key)
    requires GroupOf(k) == Letters && KeyCode(k) < 78
    ensures KeyForCode(KeyCode(k)) == Some(k)
  {
    match k
      case A => assert LetterForCode(65) == Some(A);
      case B => assert LetterForCode(66) == Some(B);
      case C => assert LetterForCode(67) == Some(C);
      case D => assert LetterForCode(68) == Some(D);
      case E => assert LetterForCode(69) == Some(E);
      case F => assert LetterForCode(70) == Some(F);
      case G => assert LetterForCode(71) == Some(G);
      case H => assert LetterForCode(72) == Some(H);
      case I => assert LetterForCode(73) == Some(I);
      case J => assert LetterForCode(74) == Some(J);
      case K => assert LetterForCode(75) == Some(K);
      case L => assert LetterForCode(76) == Some(L);
      case M => assert LetterForCode(77) == Some(M);
  }

  lemma LastLettersInvert(k: Key)
    requires GroupOf(k) == Letters && KeyCode(k) >= 78
    ensures KeyForCode(KeyCode(k)) == Some(k)
  {
    match k
      case N => assert LetterForCode(78) == Some(N);
      case O => assert LetterForCode(79) == Some(O);
      case P => assert LetterForCode(80) == Some(P);
      case Q => assert LetterForCode(81) == Some(Q);
      case R => assert LetterForCode(82) == Some(R);
      case S => assert LetterForCode(83) == Some(S);
      case T => assert LetterForCode(84) == Some(T);
      case U => assert LetterForCode(85) == Some(U);
      case V => assert LetterForCode(86) == Some(V);
      case W => assert LetterForCode(87) == Some(W);
      case X => assert LetterForCode(88) == Some(X);
      case Y => assert LetterForCode(89) == Some(Y);
      case Z => assert LetterForCode(90) == Some(Z);
  }

  lemma DigitsInvert(k: Key)
    requires GroupOf(k) == Digits
    ensures KeyForCode(KeyCode(k)) == Some(k)
  {
    match k
      case Num0 => assert DigitForCode(48) == Some(Num0);
      case Num1 => assert DigitForCode(49) == Some(Num1);
      case Num2 => assert DigitForCode(50) == Some(Num2);
      case Num3 => assert DigitForCode(51) == Some(Num3);
      case Num4 => assert DigitForCode(52) == Some(Num4);
      case Num5 => assert DigitForCode(53) == Some(Num5);
      case Num6 => assert DigitForCode(54) == Some(Num6);
      case Num7 => assert DigitForCode(55) == Some(Num7);
      case Num8 => assert DigitForCode(56) == Some(Num8);
      case Num9 => assert DigitForCode(57) == Some(Num9);
  }

  lemma OtherKeysInvert(k: Key)
    requires GroupOf(k) == OtherKeys
    ensures KeyForCode(KeyCode(k)) == Some(k)
  {
    match k
      case ArrowUp => assert OtherKeyForCode(38) == Some(ArrowUp);
      case ArrowDown => assert OtherKeyForCode(40) == Some(ArrowDown);
      case ArrowLeft => assert OtherKeyForCode(37) == Some(ArrowLeft);
      case ArrowRight => assert OtherKeyForCode(39) == Some(ArrowRight);
      case Space => assert OtherKeyForCode(32) == Some(Space);
      case Enter => assert OtherKeyForCode(10) == Some(Enter);
      case Escape => assert OtherKeyForCode(27) == Some(Escape);
      case Backspace => assert OtherKeyForCode(8) == Some(Backspace);
      case Tab => assert OtherKeyForCode(9) == Some(Tab);
      case Shift => assert OtherKeyForCode(16) == Some(Shift);
      case Ctrl => assert OtherKeyForCode(17) == Some(Ctrl);
      case Alt => assert OtherKeyForCode(18) == Some(Alt);
  }

  lemma FunctionKeysInvert(k: Key)
    requires GroupOf(k) == FunctionKeys
    ensures KeyForCode(KeyCode(k)) == Some(k)
  {
    match k
      case F1 => assert FunctionKeyForCode(112) == Some(F1);
      case F2 => assert FunctionKeyForCode(113) == Some(F2);
      case F3 => assert FunctionKeyForCode(114) == Some(F3);
      case F4 => assert FunctionKeyForCode(115) == Some(F4);
      case F5 => assert FunctionKeyForCode(116) == Some(F5);
      case F6 => assert FunctionKeyForCode(117) == Some(F6);
      case F7 => assert FunctionKeyForCode(118) == Some(F7);
      case F8 => assert FunctionKeyForCode(119) == Some(F8);
      case F9 => assert FunctionKeyForCode(120) == Some(F9);
      case F10 => assert FunctionKeyForCode(121) == Some(F10);
      case F11 => assert FunctionKeyForCode(122) == Some(F11);
      case F12 => assert FunctionKeyForCode(123) == Some(F12);
  }

  /** All constants have distinct key codes. */
  lemma KeyCodesDistinct(a: Key, b: Key)
    ensures KeyCode(a) == KeyCode(b) ==> a == b
  {
    KeyForCodeInverts(a);
    KeyForCodeInverts(b);
  }

  /** The four runs of constants the declaration is written in. */
  datatype KeyGroup = Letters | Digits | OtherKeys | FunctionKeys

  function GroupOf(k: Key): KeyGroup
  {
    match k
      case A | B | C | D | E | F | G | H | I | J | K | L | M | N | O | P | Q | R | S | T | U | V | W | X | Y | Z => Letters
      case Num0 | Num1 | Num2 | Num3 | Num4 | Num5 | Num6 | Num7 | Num8 | Num9 => Digits
      case F1 | F2 | F3 | F4 | F5 | F6 | F7 | F8 | F9 | F10 | F11 | F12 => FunctionKeys
      case _ => OtherKeys
  }

  /** values() lists every constant, each at its ordinal. */
  lemma AllKeysComplete(k: Key)
    ensures |AllKeys| == 60 && k in AllKeys
  {
    match GroupOf(k)
      case Letters => LettersListed(k);
      case Digits => DigitsListed(k);
      case OtherKeys => OtherKeysListed(k);
      case FunctionKeys => FunctionKeysListed(k);
  }

  lemma LettersListed(k: Key)
    requires GroupOf(k) == Letters
    ensures k in LetterKeys
  {
    match k
      case A => assert LetterKeys[0] == A;
      case B => assert LetterKeys[1] == B;
      case C => assert LetterKeys[2] == C;
      case D => assert LetterKeys[3] == D;
      case E => assert LetterKeys[4] == E;
      case F => assert LetterKeys[5] == F;
      case G => assert LetterKeys[6] == G;
      case H => assert LetterKeys[7] == H;
      case I => assert LetterKeys[8] == I;
      case J => assert LetterKeys[9] == J;
      case K => assert LetterKeys[10] == K;
      case L => assert LetterKeys[11] == L;
      case M => assert LetterKeys[12] == M;
      case N => assert LetterKeys[13] == N;
      case O => assert LetterKeys[14] == O;
      case P => assert LetterKeys[15] == P;
      case Q => assert LetterKeys[16] == Q;
      case R => assert LetterKeys[17] == R;
      case S => assert LetterKeys[18] == S;
      case T => assert LetterKeys[19] == T;
      case U => assert LetterKeys[20] == U;
      case V => assert LetterKeys[21] == V;
      case W => assert LetterKeys[22] == W;
      case X => assert LetterKeys[23] == X;
      case Y => assert LetterKeys[24] == Y;
      case Z => assert LetterKeys[25] == Z;
  }

  lemma DigitsListed(k: Key)
    requires GroupOf(k) == Digits
    ensures k in DigitKeys
  {
    match k
      case Num0 => assert DigitKeys[0] == Num0;
      case Num1 => assert DigitKeys[1] == Num1;
      case Num2 => assert DigitKeys[2] == Num2;
      case Num3 => assert DigitKeys[3] == Num3;
      case Num4 => assert DigitKeys[4] == Num4;
      case Num5 => assert DigitKeys[5] == Num5;
      case Num6 => assert DigitKeys[6] == Num6;
      case Num7 => assert DigitKeys[7] == Num7;
      case Num8 => assert DigitKeys[8] == Num8;
      case Num9 => assert DigitKeys[9] == Num9;
  }

  lemma OtherKeysListed(k: Key)
    requires GroupOf(k) == OtherKeys
    ensures k in OtherKeyList
  {
    match k
      case ArrowUp => assert OtherKeyList[0] == ArrowUp;
      case ArrowDown => assert OtherKeyList[1] == ArrowDown;
      case ArrowLeft => assert OtherKeyList[2] == ArrowLeft;
      case ArrowRight => assert OtherKeyList[3] == ArrowRight;
      case Space => assert OtherKeyList[4] == Space;
      case Enter => assert OtherKeyList[5] == Enter;
      case Escape => assert OtherKeyList[6] == Escape;
      case Backspace => assert OtherKeyList[7] == Backspace;
      case Tab => assert OtherKeyList[8] == Tab;
      case Shift => assert OtherKeyList[9] == Shift;
      case Ctrl => assert OtherKeyList[10] == Ctrl;
      case Alt => assert OtherKeyList[11] == Alt;
  }

  lemma FunctionKeysListed(k: Key)
    requires GroupOf(k) == FunctionKeys
    ensures k in FunctionKeyList
  {
    match k
      case F1 => assert FunctionKeyList[0] == F1;
      case F2 => assert FunctionKeyList[1] == F2;
      case F3 => assert FunctionKeyList[2] == F3;
      case F4 => assert FunctionKeyList[3] == F4;
      case F5 => assert FunctionKeyList[4] == F5;
      case F6 => assert FunctionKeyList[5] == F6;
      case F7 => assert FunctionKeyList[6] == F7;
      case F8 => assert FunctionKeyList[7] == F8;
      case F9 => assert FunctionKeyList[8] == F9;
      case F10 => assert FunctionKeyList[9] == F10;
      case F11 => assert FunctionKeyList[10] == F11;
      case F12 => assert FunctionKeyList[11] == F12;
  }

  /** The first key in keys whose code is code, scanning front to back. */
  function Lookup(keys: seq<Key>, code: int): (r: Option<Key>)
    ensures r.Some? ==> r.value in keys && KeyCode(r.value) == code
    ensures r.None? <==> forall k :: k in keys ==> KeyCode(k) != code
  {
    if |keys| == 0 then None
    else if KeyCode(keys[0]) == code then Some(keys[0])
    else Lookup(keys[1..], code)
  }

  /** fromKeyCode: the constant declared with code, or null when there is none. */
  function FromKeyCode(code: int): (r: Option<Key>)
    ensures r.Some? ==> KeyCode(r.value) == code
    ensures r.None? <==> forall k: Key :: KeyCode(k) != code
  {
    var r := Lookup(AllKeys, code);
    forall k: Key
      ensures k in AllKeys
    {
      AllKeysComplete(k);
    }
    r
  }

  /** fromKeyCode's loop over values(), returning at the first match. */
  method FromKeyCodeScan(code: int) returns (r: Option<Key>)
    ensures r == FromKeyCode(code)
  {
    r := ScanKeys(AllKeys, code);
  }

  /** The loop itself, over any list of constants. */
  method ScanKeys(keys: seq<Key>, code: int) returns (r: Option<Key>)
    ensures r == Lookup(keys, code)
  {
    var i := 0;
    while i < |keys|
      invariant 0 <= i <= |keys|
      invariant Lookup(keys[i..], code) == Lookup(keys, code)
    {
      if KeyCode(keys[i]) == code {
        return Some(keys[i]);
      }
      assert keys[i..][1..] == keys[i + 1..];
      i := i + 1;
    }
    return None;
  }

  /** fromKeyCode(k.getKeyCode()) == k for every constant. */
  lemma FromKeyCodeRoundTrip(k: Key)
    ensures FromKeyCode(KeyCode(k)) == Some(k)
  {
    var r := FromKeyCode(KeyCode(k));
    KeyCodesDistinct(r.value, k);
  }

  /** fromKeyCode agrees with the table read backwards, for every int code. */
  lemma FromKeyCodeIsTable(code: int)
    ensures FromKeyCode(code) == KeyForCode(code)
  {
    var r := FromKeyCode(code);
    KeyForCodeSound(code);
    if r.Some? {
      KeyForCodeInverts(r.value);
    }
  }

  /** VK_PAUSE (19) has no constant, so fromKeyCode returns null for it. */
  lemma PauseIsUnmapped(code: int)
    requires code == 19
    ensures FromKeyCode(code) == None
  {
    assert KeyForCode(code) == None;
    FromKeyCodeIsTable(code);
  }
}
