/**
 * The Cosmic Rage Room widget: a punch counter with a combo every tenth punch, an asteroid
 * smash, and a "void" that vaporizes the typed anger. Sounds are left out; the combo and
 * smash timeouts are separate steps.
 */
module RageRoom {
  import opened Text

  /** Punches between two combos. */
  const ComboEvery: nat := 10

  const ComboPrefix: string := "\U{1F525} COMBO! "
  const ComboSuffix: string := " alien punches! Galactic record!"
  const PunchMessage: string := "\U{1F44A} Cosmic punch landed! Alien tears detected."
  const SmashMessage: string := "\U{1F4A5} Asteroid dust everywhere! Galactic cleanup needed."
  const VoidPrefix: string := "\U{1F573}\U{FE0F} \""
  const VoidSuffix: string := "\" was vaporized by quantum forces!"

  /** The combo announcement for the `count`-th punch: the count's digits between the fixed texts. */
  function ComboMessage(count: nat): (r: string)
    ensures |r| == |ComboPrefix| + |Decimal(count)| + |ComboSuffix|
    ensures r[..|ComboPrefix|] == ComboPrefix && r[|r| - |ComboSuffix|..] == ComboSuffix
    ensures r[|ComboPrefix|..|r| - |ComboSuffix|] == Decimal(count)
  {
    Enclosed(ComboPrefix, Decimal(count), ComboSuffix);
    ComboPrefix + Decimal(count) + ComboSuffix
  }

  /** The combo announcement carries the punch count: its middle part reads back as `count`. */
  lemma ComboMessageCarriesCount(count: nat)
    ensures var r := ComboMessage(count);
      |r| > |ComboPrefix| + |ComboSuffix|
      && r[..|ComboPrefix|] == ComboPrefix && r[|r| - |ComboSuffix|..] == ComboSuffix
      && AllDigits(r[|ComboPrefix|..|r| - |ComboSuffix|])
      && DigitsValue(r[|ComboPrefix|..|r| - |ComboSuffix|]) == count
  {
    DecimalValue(count);
  }

  /** Different counts give different combo announcements. */
  lemma ComboMessageInjective(m: nat, n: nat)
    requires ComboMessage(m) == ComboMessage(n)
    ensures m == n
  {
    ComboMessageCarriesCount(m);
    ComboMessageCarriesCount(n);
  }

  /** The void announcement: it quotes the anger exactly, between the fixed texts. */
  function VoidMessage(anger: string): (r: string)
    ensures |r| == |VoidPrefix| + |anger| + |VoidSuffix|
    ensures r[..|VoidPrefix|] == VoidPrefix && r[|r| - |VoidSuffix|..] == VoidSuffix
    ensures r[|VoidPrefix|..|r| - |VoidSuffix|] == anger
  {
    Enclosed(VoidPrefix, anger, VoidSuffix);
    VoidPrefix + anger + VoidSuffix
  }

  /** Different angers give different void announcements. */
  lemma VoidMessageInjective(a: string, b: string)
    requires VoidMessage(a) == VoidMessage(b)
    ensures a == b
  {
  }

  /** The three parts of `p + m + s` can be cut back out. */
  lemma Enclosed(p: string, m: string, s: string)
    ensures var r := p + m + s;
      |r| == |p| + |m| + |s| && r[..|p|] == p && r[|r| - |s|..] == s && r[|p|..|r| - |s|] == m
  {
    var r := p + m + s;
    assert r[..|p|] == p;
    assert r[|p| + |m|..] == s;
    assert r[|p|..|p| + |m|] == m;
  }

  class Room {
    var anger: string
    var punches: nat
    var lastAction: string
    var isSmashing: bool
    var showCombo: bool

    constructor ()
      ensures anger == "" && punches == 0 && lastAction == "" && !isSmashing && !showCombo
    {
      anger := "";
      punches := 0;
      lastAction := "";
      isSmashing := false;
      showCombo := false;
    }

    /** Typing into the anger box. */
    method SetAnger(s: string)
      modifies this`anger
      ensures anger == s
    {
      anger := s;
    }

    /**
     * `playPunch`: one more punch. Every tenth punch shows the combo and announces the count;
     * any other punch announces a plain hit and leaves the combo display as it was.
     */
    method PlayPunch()
      modifies this`punches, this`showCombo, this`lastAction
      ensures punches == old(punches) + 1
      ensures punches % ComboEvery == 0 ==> showCombo && lastAction == ComboMessage(punches)
      ensures punches % ComboEvery != 0 ==> showCombo == old(showCombo) && lastAction == PunchMessage
    {
      var newPunches := punches + 1;
      punches := newPunches;
      if newPunches % ComboEvery == 0 {
        showCombo := true;
        lastAction := ComboMessage(newPunches);
      } else {
        lastAction := PunchMessage;
      }
    }

    /** The combo display's two-second timeout. */
    method HideCombo()
      modifies this`showCombo
      ensures !showCombo
    {
      showCombo := false;
    }

    /** `playSmash`: start the smash animation and announce it; punches and anger stay. */
    method PlaySmash()
      modifies this`isSmashing, this`lastAction
      ensures isSmashing && lastAction == SmashMessage
    {
      isSmashing := true;
      lastAction := SmashMessage;
    }

    /** The smash animation's half-second timeout. */
    method StopSmashing()
      modifies this`isSmashing
      ensures !isSmashing
    {
      isSmashing := false;
    }

    /**
     * `playVoid`: whitespace-only anger does nothing; otherwise the anger is announced as
     * vaporized and the box is cleared.
     */
    method PlayVoid()
      modifies this`lastAction, this`anger
      ensures IsBlank(old(anger)) ==> anger == old(anger) && lastAction == old(lastAction)
      ensures !IsBlank(old(anger)) ==> lastAction == VoidMessage(old(anger)) && anger == ""
    {
      if Trim(anger) == [] {
        return;
      }
      lastAction := VoidMessage(anger);
      anger := "";
    }
  }
}
