/** The registry wrapper that keeps the replaced field skip_payload_crypto in step with its
    successor skip_payload_crypto_override. */
module FieldMigration {
  import opened Wrappers

  datatype Fields = Fields(skipPayloadCrypto: bool, skipPayloadCryptoOverride: Option<bool>)

  /** Which of the two fields a request names. */
  datatype Paths = Paths(useOld: bool, useNew: bool)

  function OverrideValue(f: Fields): bool {
    f.skipPayloadCryptoOverride.Some? && f.skipPayloadCryptoOverride.value
  }

  /** The setting in force: the override if there is one, and otherwise the old flag. */
  function Effective(f: Fields): bool {
    if f.skipPayloadCryptoOverride.Some? then f.skipPayloadCryptoOverride.value else f.skipPayloadCrypto
  }

  function Read(f: Fields): Fields {
    if f.skipPayloadCryptoOverride.None? && f.skipPayloadCrypto then f.(skipPayloadCryptoOverride := Some(true))
    else f.(skipPayloadCrypto := OverrideValue(f))
  }

  /** A write; the flag says whether it was rejected, in which case the device is left as it was. */
  function Write(f: Fields, matched: Paths): (Fields, bool) {
    if matched.useOld && matched.useNew && f.skipPayloadCrypto != OverrideValue(f) then (f, false)
    else
      var g := if matched.useOld && !matched.useNew then f.(skipPayloadCryptoOverride := Some(f.skipPayloadCrypto)) else f;
      (g.(skipPayloadCrypto := false), true)
  }

  class EndDevice {
    var skipPayloadCrypto: bool
    var skipPayloadCryptoOverride: Option<bool>

    constructor (f: Fields)
      ensures View() == f
    {
      skipPayloadCrypto, skipPayloadCryptoOverride := f.skipPayloadCrypto, f.skipPayloadCryptoOverride;
    }

    function View(): Fields
      reads this
    {
      Fields(skipPayloadCrypto, skipPayloadCryptoOverride)
    }

    method GetTransform()
      modifies this
      ensures View() == Read(old(View()))
    {
      if skipPayloadCryptoOverride.None? && skipPayloadCrypto {
        skipPayloadCryptoOverride := Some(true);
      } else {
        skipPayloadCrypto := skipPayloadCryptoOverride.Some? && skipPayloadCryptoOverride.value;
      }
    }

    method SetTransform(useOld: bool, useNew: bool) returns (ok: bool)
      modifies this
      ensures (View(), ok) == Write(old(View()), Paths(useOld, useNew))
    {
      if useOld {
        if useNew {
          if skipPayloadCrypto != (skipPayloadCryptoOverride.Some? && skipPayloadCryptoOverride.value) {
            return false;
          }
        } else {
          skipPayloadCryptoOverride := Some(skipPayloadCrypto);
        }
      }
      skipPayloadCrypto := false;
      return true;
    }
  }

  predicate Matches(p: Paths) {
    p.useOld || p.useNew
  }

  /** What a caller is given of a stored device: both fields as read, if it asks for one of them. */
  function Loaded(stored: Fields, requested: Paths): Fields {
    if Matches(requested) then Read(stored) else Fields(false, None)
  }

  /** The outcome of a caller's update function: an error, the deletion of the device, or new values
      of which the fields named by the mask are written. */
  datatype Change = Fails | Deletes | Writes(fields: Fields, mask: Paths)

  type Update = Option<Fields> -> Change

  /** The registry below the wrapper, with at most one device. */
  class Registry {
    var stored: Option<Fields>

    constructor (stored: Option<Fields>)
      ensures this.stored == stored
    {
      this.stored := stored;
    }

    /** Only the requested fields of the stored device are loaded. */
    method Load(paths: Paths) returns (dev: EndDevice?)
      ensures dev == null <==> stored.None?
      ensures dev != null ==>
                fresh(dev) && dev.View() == Fields(paths.useOld && stored.value.skipPayloadCrypto,
                                                   if paths.useNew then stored.value.skipPayloadCryptoOverride else None)
    {
      if stored.None? {
        return null;
      }
      dev := new EndDevice(Fields(paths.useOld && stored.value.skipPayloadCrypto,
                                  if paths.useNew then stored.value.skipPayloadCryptoOverride else None));
    }

    method Get(requested: Paths) returns (dev: EndDevice?)
      ensures dev == null <==> stored.None?
      ensures dev != null ==> fresh(dev) && dev.View() == Loaded(stored.value, requested)
    {
      var paths := if Matches(requested) then Paths(true, true) else requested;
      dev := Load(paths);
      if dev != null && Matches(requested) {
        dev.GetTransform();
      }
    }

    /** Has the caller update what it is given, and stores the fields that it names. An error of the
        write transform is not looked at. What is returned has been transformed for reading. */
    method Set(requested: Paths, f: Update) returns (dev: EndDevice?)
      modifies this
      ensures stored == Stored(old(stored), requested, f)
      ensures dev == null <==> stored.None? || !Given(old(stored), requested, f).Writes?
      ensures dev != null ==> fresh(dev) && dev.View() == Loaded(stored.value, requested)
    {
      dev := Get(requested);
      var change := f(if dev == null then None else Some(dev.View()));
      match change
      case Fails =>
        return null;
      case Deletes =>
        stored := None;
        return null;
      case Writes(fields, mask) =>
        dev := new EndDevice(fields);
        var paths := mask;
        if Matches(requested) {
          if paths.useOld {
            paths := paths.(useNew := true);
          }
          var ok := dev.SetTransform(requested.useOld, requested.useNew);
        }
        stored := Some(Masked(if stored.None? then Fields(false, None) else stored.value, dev.View(), paths));
        dev := Get(requested);
    }
  }

  function Masked(stored: Fields, updated: Fields, mask: Paths): Fields {
    Fields(if mask.useOld then updated.skipPayloadCrypto else stored.skipPayloadCrypto,
           if mask.useNew then updated.skipPayloadCryptoOverride else stored.skipPayloadCryptoOverride)
  }

  /** What the caller's update function makes of what it is given. */
  function Given(stored: Option<Fields>, requested: Paths, f: Update): Change {
    f(if stored.Some? then Some(Loaded(stored.value, requested)) else None)
  }

  function Written(stored: Fields, requested: Paths, updated: Fields, mask: Paths): Fields {
    if Matches(requested) then
      Masked(stored, Write(updated, requested).0, if mask.useOld then mask.(useNew := true) else mask)
    else
      Masked(stored, updated, mask)
  }

  function Stored(stored: Option<Fields>, requested: Paths, f: Update): Option<Fields> {
    match Given(stored, requested, f)
    case Fails => stored
    case Deletes => None
    case Writes(updated, mask) => Some(Written(if stored.Some? then stored.value else Fields(false, None), requested, updated, mask))
  }

  /** Reading makes the two fields agree, keeps the effective setting and changes nothing the second time. It
      adds an override for an old flag only. */
  lemma ReadAgrees(f: Fields)
    ensures Read(f).skipPayloadCrypto == OverrideValue(Read(f)) == Effective(f)
    ensures Effective(Read(f)) == Effective(f)
    ensures Read(Read(f)) == Read(f)
    ensures Read(f).skipPayloadCryptoOverride ==
            if f.skipPayloadCryptoOverride.None? && f.skipPayloadCrypto then Some(true) else f.skipPayloadCryptoOverride
  {
  }

  /** The value that a caller asks for with an update of the fields it requested. */
  ghost function Wanted(updated: Fields, requested: Paths): bool {
    if requested.useNew then OverrideValue(updated) else updated.skipPayloadCrypto
  }

  ghost predicate Conflict(updated: Fields, requested: Paths) {
    requested.useOld && requested.useNew && updated.skipPayloadCrypto != OverrideValue(updated)
  }

  /** A write of the override alone that clears it while the stored old flag is still set. */
  ghost predicate RevivesOldFlag(stored: Fields, requested: Paths, updated: Fields, mask: Paths) {
    requested.useNew && !mask.useOld && updated.skipPayloadCryptoOverride.None? && stored.skipPayloadCrypto
  }

  /** Later reads return v in both fields. */
  ghost predicate ReadsAs(f: Fields, v: bool) {
    Read(f).skipPayloadCrypto == OverrideValue(Read(f)) == v
  }

  /** Whatever is stored, requested and masked: a write without contradiction takes effect, unless it
      brings an old flag back to life. With the old field in the mask, the old flag is stored cleared.
      A contradicting write, which is meant to be rejected, is stored as it is. A mask without the two
      fields leaves them alone. */
  lemma WriteTakesEffect(stored: Fields, requested: Paths, updated: Fields, mask: Paths)
    requires requested.useOld || requested.useNew
    ensures Write(updated, requested).1 <==> !Conflict(updated, requested)
    ensures var after := Written(stored, requested, updated, mask);
            if !mask.useOld && !mask.useNew then after == stored
            else if Conflict(updated, requested) then
              after == if mask.useOld then updated else stored.(skipPayloadCryptoOverride := updated.skipPayloadCryptoOverride)
            else
              && (ReadsAs(after, Wanted(updated, requested)) <==> !RevivesOldFlag(stored, requested, updated, mask))
              && (after.skipPayloadCrypto <==> !mask.useOld && stored.skipPayloadCrypto)
  {
  }

  /** The update function is given the device as it is read. If it fails, what is stored stays; a deleted
      device is gone. A request that names neither field stores what is masked as it is given. */
  lemma UpdateOutcome(stored: Option<Fields>, requested: Paths, f: Update)
    ensures var asked := requested.useOld || requested.useNew;
            var change := f(if stored.None? then None else if asked then Some(Read(stored.value)) else Some(Fields(false, None)));
            var before := if stored.Some? then stored.value else Fields(false, None);
            var after := Stored(stored, requested, f);
            && (change.Fails? ==> after == stored)
            && (change.Deletes? ==> after.None?)
            && (change.Writes? ==> after == Some(Written(before, requested, change.fields, change.mask)))
            && (change.Writes? && !asked ==>
                  && after.value.skipPayloadCrypto == (if change.mask.useOld then change.fields else before).skipPayloadCrypto
                  && after.value.skipPayloadCryptoOverride == (if change.mask.useNew then change.fields else before).skipPayloadCryptoOverride)
  {
  }

  /** An update function that hands the two fields back as it was given them. */
  ghost predicate LeavesFieldsAlone(f: Update, g: Fields) {
    f(Some(g)).Writes? && f(Some(g)).fields == g
  }

  /** Handing back what was loaded keeps the effective setting, whatever is requested and masked, and
      migrates the old flag as soon as the mask names it. */
  lemma UntouchedSettingKept(stored: Fields, requested: Paths, f: Update)
    requires Matches(requested) && LeavesFieldsAlone(f, Read(stored))
    ensures var after := Stored(Some(stored), requested, f);
            && after.Some?
            && Effective(after.value) == Effective(stored)
            && (f(Some(Read(stored))).mask.useOld ==> !after.value.skipPayloadCrypto)
  {
    var mask := f(Some(Read(stored))).mask;
    ReadAgrees(stored);
    WriteTakesEffect(stored, requested, Read(stored), mask);
    ReadAgrees(Written(stored, requested, Read(stored), mask));
  }

  /** Clearing the override of a device whose old flag is still stored leaves skipping switched on,
      and a contradicting write stores the contradiction. */
  lemma WritesWithoutEffect()
    ensures Effective(Written(Fields(true, None), Paths(false, true), Fields(true, None), Paths(false, true))) != OverrideValue(Fields(true, None))
    ensures Written(Fields(false, None), Paths(true, true), Fields(true, Some(false)), Paths(true, true)) == Fields(true, Some(false))
  {
  }
}
