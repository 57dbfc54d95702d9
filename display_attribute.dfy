/**
 * The display attribute the text service registers for its composition
 * (crates/client/src/tsf/display_attribute.rs and the attribute constant of
 * crates/client/src/globals.rs): one attribute object whose value can be
 * overwritten and reset, an enumerator over the one-element list, and the
 * provider's lookup by GUID.
 */
module DisplayAttributes {
  import opened Ints
  import opened Wrappers
  import opened HResults
  import G = Globals
  import Ext = Extension

  /** `TF_DA_COLORTYPE` */
  datatype ColorType = TF_CT_NONE | TF_CT_SYSCOLOR | TF_CT_COLORREF

  /** `TF_DA_COLOR`: the colour kind and its index (or colour reference). */
  datatype DaColor = DaColor(kind: ColorType, index: int)

  /** `TF_DA_LINESTYLE` */
  datatype LineStyle = TF_LS_NONE | TF_LS_SOLID | TF_LS_DOT | TF_LS_DASH | TF_LS_SQUIGGLE

  /** `TF_DA_ATTR_INFO` */
  datatype AttrInfo =
    | TF_ATTR_INPUT | TF_ATTR_TARGET_CONVERTED | TF_ATTR_CONVERTED
    | TF_ATTR_TARGET_NOTCONVERTED | TF_ATTR_INPUT_ERROR | TF_ATTR_FIXEDCONVERTED
    | TF_ATTR_OTHER

  /** `TF_DISPLAYATTRIBUTE` */
  datatype DisplayAttribute = DisplayAttribute(
    crText: DaColor, crBk: DaColor, lsStyle: LineStyle, fBoldLine: bool,
    crLine: DaColor, bAttr: AttrInfo)

  const NoColor := DaColor(TF_CT_NONE, 0)

  /** The composition's look: default colours, a solid underline, not bold, "target converted". */
  const DISPLAY_ATTRIBUTE := DisplayAttribute(NoColor, NoColor, TF_LS_SOLID, false, NoColor, TF_ATTR_TARGET_CONVERTED)

  /** `DisplayAttributeInfo`: a GUID, the current attribute (a `Cell`) and the value it was created with. */
  class DisplayAttributeInfo {
    const guid: Ext.Guid
    var attribute: DisplayAttribute
    const backup: DisplayAttribute

    constructor (guid: Ext.Guid, attribute: DisplayAttribute)
      ensures this.guid == guid && this.attribute == attribute && backup == attribute
    {
      this.guid, this.attribute, backup := guid, attribute, attribute;
    }

    /** The derived `Clone`: a new object with the same GUID, current value and backup. */
    constructor CopyOf(other: DisplayAttributeInfo)
      ensures guid == other.guid && attribute == other.attribute && backup == other.backup
    {
      guid, attribute, backup := other.guid, other.attribute, other.backup;
    }

    /** `GetAttributeInfo` hands out the current attribute. */
    method GetAttributeInfo() returns (pda: DisplayAttribute)
      ensures pda == attribute
    {
      pda := attribute;
    }

    method GetGuid() returns (g: Ext.Guid)
      ensures g == guid
    {
      g := guid;
    }

    /** `GetDescription` returns an empty string. */
    method GetDescription() returns (description: string)
      ensures description == ""
    {
      description := "";
    }

    /** `SetAttributeInfo` overwrites the current attribute; the backup stays. */
    method SetAttributeInfo(pda: DisplayAttribute)
      modifies this
      ensures attribute == pda
    {
      attribute := pda;
    }

    /** `Reset` restores the value the object was created with. */
    method Reset()
      modifies this
      ensures attribute == backup
    {
      attribute := backup;
    }
  }

  /**
   * How many entries `Next` fetches when asked for `count` of them with the
   * cursor at `index` in a list of `len`: as many as asked, but no more than
   * remain, and none when the cursor is past the end.
   */
  function Fetched(count: nat, len: nat, index: nat): (n: nat)
    ensures n <= count
    ensures n == 0 <==> count == 0 || index >= len
    ensures n > 0 ==> index + n <= len
    ensures n > 0 ==> n == count || index + n == len
  {
    if index >= len then 0 else if count <= len - index then count else len - index
  }

  /** `EnumDisplayAttributeInfo`: the attribute list and the cursor (an atomic `usize`). */
  class EnumDisplayAttributeInfo {
    const attributes: seq<DisplayAttributeInfo>
    var index: nat

    /** The list holds exactly the composition's attribute, and the cursor is at its start. */
    constructor ()
      ensures |attributes| == 1 && fresh(attributes[0]) && index == 0
      ensures attributes[0].guid == G.GUID_DISPLAY_ATTRIBUTE
      ensures attributes[0].attribute == DISPLAY_ATTRIBUTE && attributes[0].backup == DISPLAY_ATTRIBUTE
    {
      var info := new DisplayAttributeInfo(G.GUID_DISPLAY_ATTRIBUTE, DISPLAY_ATTRIBUTE);
      attributes, index := [info], 0;
    }

    /** `Clone` builds a fresh enumerator and copies the cursor into it. */
    method Clone() returns (clone: EnumDisplayAttributeInfo)
      ensures fresh(clone) && clone.index == index
      ensures |clone.attributes| == 1 && fresh(clone.attributes[0])
      ensures clone.attributes[0].guid == G.GUID_DISPLAY_ATTRIBUTE
      ensures clone.attributes[0].attribute == DISPLAY_ATTRIBUTE
    {
      clone := new EnumDisplayAttributeInfo();
      clone.index := index;
    }

    /**
     * `Next`: asked for no entries it changes nothing and leaves `pcfetched`
     * unwritten (`None`); otherwise it walks the list from the cursor,
     * storing a copy of each entry it passes in the FIRST slot of `rginfo`
     * (the source writes `*rginfo` on every round), and reports how many it
     * fetched. The cursor moves past the fetched entries.
     */
    method Next(count: U32, rginfo: array<Option<DisplayAttributeInfo>>) returns (pcfetched: Option<U32>)
      requires count == 0 || rginfo.Length >= 1
      modifies this, rginfo
      ensures var n := Fetched(count, |attributes|, old(index));
        && (count == 0 ==> pcfetched == None)
        && (count > 0 ==> pcfetched == Some(n))
        && index == old(index) + n
        && (n == 0 ==> rginfo[..] == old(rginfo[..]))
        && (n > 0 ==> rginfo[1..] == old(rginfo[1..]))
      ensures var n := Fetched(count, |attributes|, old(index));
        n > 0 ==>
          && rginfo[0].Some? && fresh(rginfo[0].value)
          && rginfo[0].value.guid == attributes[old(index) + n - 1].guid
          && rginfo[0].value.attribute == attributes[old(index) + n - 1].attribute
          && rginfo[0].value.backup == attributes[old(index) + n - 1].backup
    {
      if count == 0 {
        return None;
      }
      var fetched: nat := 0;
      var i := index;
      while fetched < count && i < |attributes|
        invariant fetched <= count
        invariant i == old(index) + fetched
        invariant fetched > 0 ==> i <= |attributes|
        invariant fetched == 0 ==> rginfo[..] == old(rginfo[..])
        invariant fetched > 0 ==> rginfo[1..] == old(rginfo[1..])
        invariant fetched > 0 ==>
          && rginfo[0].Some? && fresh(rginfo[0].value)
          && rginfo[0].value.guid == attributes[i - 1].guid
          && rginfo[0].value.attribute == attributes[i - 1].attribute
          && rginfo[0].value.backup == attributes[i - 1].backup
      {
        var copy := new DisplayAttributeInfo.CopyOf(attributes[i]);
        rginfo[0] := Some(copy);
        fetched := fetched + 1;
        i := i + 1;
      }
      index := i;
      pcfetched := Some(fetched);
    }

    /** `Reset` puts the cursor back at the start. */
    method Reset()
      modifies this
      ensures index == 0
    {
      index := 0;
    }

    /** `Skip` moves the cursor forward by `count`, without clamping it to the list. */
    method Skip(count: U32)
      modifies this
      ensures index == old(index) + count
    {
      index := index + count;
    }
  }

  /**
   * The provider's `GetDisplayAttributeInfo`: a fresh enumerator is searched
   * for the GUID; the attribute object is handed out when it is found, and
   * the call fails with `E_FAIL` otherwise.
   */
  method GetDisplayAttributeInfo(guid: Ext.Guid) returns (r: Result<DisplayAttributeInfo, HResult>)
    ensures r.Success? <==> guid == G.GUID_DISPLAY_ATTRIBUTE
    ensures r.Success? ==> fresh(r.value) && r.value.guid == guid && r.value.attribute == DISPLAY_ATTRIBUTE
    ensures r.Failure? ==> r.error == E_FAIL
  {
    var attributes := new EnumDisplayAttributeInfo();
    var k := 0;
    while k < |attributes.attributes|
      invariant 0 <= k <= |attributes.attributes|
      invariant forall j :: 0 <= j < k ==> attributes.attributes[j].guid != guid
    {
      if attributes.attributes[k].guid == guid {
        return Success(attributes.attributes[k]);
      }
      k := k + 1;
    }
    r := Failure(E_FAIL);
  }

  /** The provider's `EnumDisplayAttributeInfo` hands out a new enumerator at the start of the list. */
  method EnumDisplayAttributeInfos() returns (e: EnumDisplayAttributeInfo)
    ensures fresh(e) && e.index == 0 && |e.attributes| == 1
    ensures e.attributes[0].guid == G.GUID_DISPLAY_ATTRIBUTE && e.attributes[0].attribute == DISPLAY_ATTRIBUTE
  {
    e := new EnumDisplayAttributeInfo();
  }
}
