// DirectInput scan codes of the keyboard keys the application injects, and the
// flag and input-type values of the Windows SendInput interface.
module KeyBoardScanCodes {

  // FlagsInfo
  const KEYEVENTF_EXTENDEDKEY: int := 0x0001
  const KEYEVENTF_KEYUP: int := 0x0002
  const KEYEVENTF_SCANCODE: int := 0x0008
  const KEYEVENTF_UNICODE: int := 0x0004

  // InputType
  const InputMouse: int := 0
  const InputKeyBoard: int := 1
  const InputHardware: int := 2

  // ScanCode: the explicitly numbered members
  const DIK_ESCAPE: int := 0x01
  const DIK_1: int := 0x02
  const DIK_2: int := 0x03
  const DIK_3: int := 0x04
  const DIK_4: int := 0x05
  const DIK_5: int := 0x06
  const DIK_6: int := 0x07
  const DIK_7: int := 0x08
  const DIK_8: int := 0x09
  const DIK_9: int := 0x0A
  const DIK_0: int := 0x0B
  const DIK_MINUS: int := 0x0C
  const DIK_EQUALS: int := 0x0D
  const DIK_BACK: int := 0x0E
  const DIK_TAB: int := 0x0F
  const DIK_Q: int := 0x10
  const DIK_W: int := 0x11
  const DIK_E: int := 0x12
  const DIK_R: int := 0x13
  const DIK_T: int := 0x14
  const DIK_Y: int := 0x15
  const DIK_U: int := 0x16
  const DIK_I: int := 0x17
  const DIK_O: int := 0x18
  const DIK_P: int := 0x19
  const DIK_LBRACKET: int := 0x1A
  const DIK_RBRACKET: int := 0x1B
  const DIK_RETURN: int := 0x1C
  const DIK_LCONTROL: int := 0x1D
  const DIK_A: int := 0x1E
  const DIK_S: int := 0x1F
  const DIK_D: int := 0x20
  const DIK_F: int := 0x21
  const DIK_G: int := 0x22
  const DIK_H: int := 0x23
  const DIK_J: int := 0x24
  const DIK_K: int := 0x25
  const DIK_L: int := 0x26
  const DIK_SEMICOLON: int := 0x27
  const DIK_APOSTROPHE: int := 0x28
  const DIK_GRAVE: int := 0x29
  const DIK_LSHIFT: int := 0x2A
  const DIK_BACKSLASH: int := 0x2B
  const DIK_Z: int := 0x2C
  const DIK_X: int := 0x2D
  const DIK_C: int := 0x2E
  const DIK_V: int := 0x2F
  const DIK_B: int := 0x30
  const DIK_N: int := 0x31
  const DIK_M: int := 0x32
  const DIK_COMMA: int := 0x33
  const DIK_PERIOD: int := 0x34
  const DIK_SLASH: int := 0x35
  const DIK_RSHIFT: int := 0x36
  const DIK_MULTIPLY: int := 0x37
  const DIK_LMENU: int := 0x38
  const DIK_SPACE: int := 0x39
  const DIK_CAPITAL: int := 0x3A
  const DIK_F1: int := 0x3B
  const DIK_F2: int := 0x3C
  const DIK_F3: int := 0x3D
  const DIK_F4: int := 0x3E
  const DIK_F5: int := 0x3F
  const DIK_F6: int := 0x40
  const DIK_F7: int := 0x41
  const DIK_F8: int := 0x42
  const DIK_F9: int := 0x43
  const DIK_F10: int := 0x44
  const DIK_NUMLOCK: int := 0x45
  const DIK_SCROLL: int := 0x46
  const DIK_NUMPAD7: int := 0x47
  const DIK_NUMPAD8: int := 0x48
  const DIK_NUMPAD9: int := 0x49
  const DIK_SUBTRACT: int := 0x4A
  const DIK_NUMPAD4: int := 0x4B
  const DIK_NUMPAD5: int := 0x4C
  const DIK_NUMPAD6: int := 0x4D
  const DIK_ADD: int := 0x4E
  const DIK_NUMPAD1: int := 0x4F
  const DIK_NUMPAD2: int := 0x50
  const DIK_NUMPAD3: int := 0x51
  const DIK_NUMPAD0: int := 0x52
  const DIK_DECIMAL: int := 0x53
  const DIK_F11: int := 0x57
  const DIK_F12: int := 0x58
  const DIK_HOME: int := 0xC7
  const DIK_UP: int := 0xC8
  const DIK_PRIOR: int := 0xC9
  const DIK_LEFT: int := 0xCB
  const DIK_RIGHT: int := 0xCD
  const DIK_END: int := 0xCF
  const DIK_DOWN: int := 0xD0
  const DIK_NEXT: int := 0xD1
  const DIK_INSERT: int := 0xD2
  const DIK_DELETE: int := 0xD3

  // ScanCode: the aliases
  const DIK_UPARROW: int := DIK_UP
  const DIK_PGUP: int := DIK_PRIOR
  const DIK_LEFTARROW: int := DIK_LEFT
  const DIK_RIGHTARROW: int := DIK_RIGHT
  const DIK_DOWNARROW: int := DIK_DOWN
  const DIK_PGDN: int := DIK_NEXT
  /** An enumeration member without a value takes its predecessor's value plus one. */
  const DIK_UNKNOWN: int := DIK_PGDN + 1

  /** The implicit "unknown" code is the value after PgDn, which is the code of Insert. */
  lemma UnknownIsInsert()
    ensures DIK_UNKNOWN == 0xD2 == DIK_INSERT
  {
  }

  /** Each alias names the same key as its base code, and the arrow keys the
      keyboard worker sends are four distinct codes. */
  lemma AliasesAgree()
    ensures DIK_UPARROW == DIK_UP == 0xC8 && DIK_PGUP == DIK_PRIOR == 0xC9
    ensures DIK_LEFTARROW == DIK_LEFT == 0xCB && DIK_RIGHTARROW == DIK_RIGHT == 0xCD
    ensures DIK_DOWNARROW == DIK_DOWN == 0xD0 && DIK_PGDN == DIK_NEXT == 0xD1
    ensures |{DIK_UPARROW, DIK_LEFTARROW, DIK_RIGHTARROW, DIK_DOWNARROW}| == 4
  {
  }

  /** The four event flags are distinct single bits. */
  lemma FlagsAreSingleBits()
    ensures KEYEVENTF_EXTENDEDKEY as bv8 & KEYEVENTF_KEYUP as bv8 == 0
    ensures KEYEVENTF_EXTENDEDKEY as bv8 & KEYEVENTF_SCANCODE as bv8 == 0
    ensures KEYEVENTF_EXTENDEDKEY as bv8 & KEYEVENTF_UNICODE as bv8 == 0
    ensures KEYEVENTF_KEYUP as bv8 & KEYEVENTF_SCANCODE as bv8 == 0
    ensures KEYEVENTF_KEYUP as bv8 & KEYEVENTF_UNICODE as bv8 == 0
    ensures KEYEVENTF_SCANCODE as bv8 & KEYEVENTF_UNICODE as bv8 == 0
  {
  }
}
