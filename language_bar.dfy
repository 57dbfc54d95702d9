/**
 * The language-bar button of the current client
 * (crates/client/src/tsf/language_bar.rs): its fixed description, the
 * click that switches the input mode, the icon that shows the mode, and the
 * sink registration of `ITfSource`.
 *
 * Every COM method of the client is wrapped by the `#[macros::anyhow]`
 * attribute (crates/macros/src/lib.rs), which replaces whatever error the
 * body returns with `E_FAIL`. `ThroughAnyhow` models that wrapper.
 */
module LanguageBar {
  import opened Ints
  import opened Wrappers
  import opened HResults
  import opened InputModes
  import G = Globals
  import Ext = Extension

  /** `GUID_LBI_INPUTMODE` of the Windows SDK (msctf.h). */
  const GUID_LBI_INPUTMODE := Ext.Guid(0x2c77a81e, 0x41cc, 0x4178, [0xa3, 0xa7, 0x5f, 0x8a, 0x98, 0x75, 0x68, 0xe6])

  /** The interface identifier of `ITfLangBarItemSink` (msctf.h). */
  const IID_ITfLangBarItemSink := Ext.Guid(0x57dbe1a0, 0xde25, 0x11d2, [0xaf, 0xdd, 0x00, 0x10, 0x5a, 0x27, 0x99, 0xb5])

  /** `TF_LBI_STYLE_BTN_BUTTON` (msctf.h). */
  const TF_LBI_STYLE_BTN_BUTTON: U32 := 0x0001_0000

  /** `TF_LANGBARITEMINFO`; the description is a fixed array of 32 UTF-16 units. */
  datatype LangBarItemInfo = LangBarItemInfo(
    clsidService: Ext.Guid, guidItem: Ext.Guid, dwStyle: U32, ulSort: U32, szDescription: seq<Ext.U16>)

  /** `n` NUL units. */
  function Nuls(n: nat): (r: seq<Ext.U16>)
    ensures |r| == n && forall k :: 0 <= k < n ==> r[k] == 0
  {
    if n == 0 then [] else Nuls(n - 1) + [0]
  }

  /** The item's description: the text service, the input-mode item, a plain button, an empty name. */
  const INFO := LangBarItemInfo(G.GUID_TEXT_SERVICE, GUID_LBI_INPUTMODE, TF_LBI_STYLE_BTN_BUTTON, 0, Nuls(32))

  /** The `#[macros::anyhow]` wrapper: a success passes through, every error becomes `E_FAIL`. */
  function ThroughAnyhow<T>(body: Result<T, HResult>): (r: Result<T, HResult>)
    ensures r.Success? <==> body.Success?
    ensures body.Success? ==> r == body
    ensures r.Failure? ==> r.error == E_FAIL
  {
    match body
    case Success(v) => Success(v)
    case Failure(_) => Failure(E_FAIL)
  }

  /** `GetInfo` succeeds with `INFO`, whose description is blank (all NUL units). */
  function GetInfo(): (r: Result<LangBarItemInfo, HResult>)
    ensures r.Success? && r.value.clsidService == G.GUID_TEXT_SERVICE && r.value.guidItem == GUID_LBI_INPUTMODE
    ensures r.Success? && r.value.dwStyle == TF_LBI_STYLE_BTN_BUTTON && r.value.ulSort == 0
    ensures r.Success? && |r.value.szDescription| == 32 && forall k :: 0 <= k < 32 ==> r.value.szDescription[k] == 0
  {
    ThroughAnyhow(Success(INFO))
  }

  /** `GetStatus` always reports status 0 (enabled, not pressed). */
  function GetStatus(): (r: Result<U32, HResult>)
    ensures r == Success(0)
  {
    ThroughAnyhow(Success(0))
  }

  /** The icon resource that stands for a mode. */
  function IconId(mode: InputMode): (id: nat)
    ensures mode == Kana ==> id == 102
    ensures mode == Latin ==> id == 103
  {
    match mode
    case Kana => 102
    case Latin => 103
  }

  /** The icon tells the modes apart: equal icons mean equal modes. */
  lemma IconShowsMode(m1: InputMode, m2: InputMode)
    ensures IconId(m1) == IconId(m2) <==> m1 == m2
  {
    if m1 != m2 {
      assert {m1, m2} == {Latin, Kana};
    }
  }

  /**
   * The button, with the input mode of the global IME state it shows and
   * switches, and the modes it asked `set_input_mode` to apply, in order.
   */
  class LanguageBarButton {
    var mode: InputMode
    var requested: seq<InputMode>

    constructor (mode: InputMode)
      ensures this.mode == mode && requested == []
    {
      this.mode, requested := mode, [];
    }

    /** `OnClick` switches to the other mode, whatever was clicked where. */
    method OnClick()
      modifies this
      ensures mode == Toggled(old(mode)) && mode != old(mode)
      ensures requested == old(requested) + [mode]
    {
      var next := match mode case Latin => Kana case Kana => Latin;
      requested := requested + [next];
      mode := next;
    }

    /** Two clicks bring the button back to the mode it started in. */
    method ClickTwice()
      modifies this
      ensures mode == old(mode)
      ensures requested == old(requested) + [Toggled(old(mode)), old(mode)]
    {
      OnClick();
      OnClick();
      ToggledTwice(old(mode));
    }

    /** `GetIcon` loads the icon resource of the current mode. */
    method GetIcon() returns (id: nat)
      ensures id == IconId(mode)
    {
      id := if mode == Kana then 102 else 103;
    }
  }

  /**
   * `AdviseSink` as its body intends it: the fixed cookie for an
   * `ITfLangBarItemSink` registration with a sink, `E_INVALIDARG` otherwise.
   */
  function AdviseSink(riid: Ext.Guid, hasSink: bool): (r: Result<U32, HResult>)
    ensures r.Success? <==> riid == IID_ITfLangBarItemSink && hasSink
    ensures r.Success? ==> r.value == G.TEXTSERVICE_LANGBARITEMSINK_COOKIE
    ensures r.Failure? ==> r.error == E_INVALIDARG && Failed(r.error)
  {
    if riid != IID_ITfLangBarItemSink then Failure(E_INVALIDARG)
    else if !hasSink then Failure(E_INVALIDARG)
    else Success(G.TEXTSERVICE_LANGBARITEMSINK_COOKIE)
  }

  /** `UnadviseSink` as its body intends it: only the fixed cookie is accepted. */
  function UnadviseSink(cookie: U32): (r: Result<(), HResult>)
    ensures r.Success? <==> cookie == G.TEXTSERVICE_LANGBARITEMSINK_COOKIE
    ensures r.Failure? ==> r.error == CONNECT_E_CANNOTCONNECT && Failed(r.error)
  {
    if cookie != G.TEXTSERVICE_LANGBARITEMSINK_COOKIE then Failure(CONNECT_E_CANNOTCONNECT) else Success(())
  }

  /** `AdviseSink` as the caller sees it, through the wrapper: it agrees with the intent exactly on success. */
  function AdviseSinkAsWritten(riid: Ext.Guid, hasSink: bool): (r: Result<U32, HResult>)
    ensures r.Success? <==> riid == IID_ITfLangBarItemSink && hasSink
    ensures r.Success? <==> r == AdviseSink(riid, hasSink)
    ensures r.Failure? ==> r.error == E_FAIL
  {
    ThroughAnyhow(AdviseSink(riid, hasSink))
  }

  /** `UnadviseSink` as the caller sees it, through the wrapper. */
  function UnadviseSinkAsWritten(cookie: U32): (r: Result<(), HResult>)
    ensures r.Success? <==> cookie == G.TEXTSERVICE_LANGBARITEMSINK_COOKIE
    ensures r.Success? <==> r == UnadviseSink(cookie)
    ensures r.Failure? ==> r.error == E_FAIL
  {
    ThroughAnyhow(UnadviseSink(cookie))
  }

  /**
   * The codes the bodies choose never reach the caller: a wrong interface
   * gives `E_FAIL`, not `E_INVALIDARG`, and an unknown cookie gives
   * `E_FAIL`, not `CONNECT_E_CANNOTCONNECT`.
   */
  lemma ChosenCodesAreLost(riid: Ext.Guid, cookie: U32)
    requires riid != IID_ITfLangBarItemSink && cookie != G.TEXTSERVICE_LANGBARITEMSINK_COOKIE
    ensures AdviseSink(riid, true) == Failure(E_INVALIDARG)
    ensures AdviseSinkAsWritten(riid, true) == Failure(E_FAIL) != Failure(E_INVALIDARG)
    ensures UnadviseSink(cookie) == Failure(CONNECT_E_CANNOTCONNECT)
    ensures UnadviseSinkAsWritten(cookie) == Failure(E_FAIL) != Failure(CONNECT_E_CANNOTCONNECT)
  {
  }

  /** Registering with the right interface and a sink yields the cookie that unregistering accepts. */
  lemma AdviseThenUnadvise()
    ensures AdviseSink(IID_ITfLangBarItemSink, true).Success?
    ensures UnadviseSink(AdviseSink(IID_ITfLangBarItemSink, true).value) == Success(())
    ensures UnadviseSinkAsWritten(AdviseSinkAsWritten(IID_ITfLangBarItemSink, true).value) == Success(())
  {
  }
}
