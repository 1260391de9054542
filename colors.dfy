/** The fixed slice palette of src/utils/colors.ts and its cyclic lookup. */
module Colors {

  // The palette's entries, named after the shade each one gives. Three hex
  // codes occur twice in the palette; each is one named entry used twice.
  const VIVID_RED := "#FF6B6B"
  const TURQUOISE := "#4ECDC4"
  const BLUE := "#45B7D1"
  const LIGHT_GREEN := "#96CEB4"
  const YELLOW := "#FFEAA7"
  const LIGHT_PURPLE := "#DDA0DD"
  const MINT_GREEN := "#98D8C8"
  const GOLD := "#F7DC6F"
  const LAVENDER := "#BB8FCE"
  const LIGHT_BLUE := "#85C1E9"
  const ORANGE := "#F8C471"
  const GREEN := "#82E0AA"
  const CORAL := "#F1948A"
  const PALE_PURPLE := "#D7BDE2"
  const PALE_GREEN := "#A9DFBF"
  const PEACH := "#FAD7A0"
  const BABY_BLUE := "#AED6F1"
  const CREAM := "#F9E79F"
  const MEDIUM_PURPLE := "#D2B4DE"
  const PALE_TURQUOISE := "#A3E4D7"
  const LIGHT_PINK := "#F5B7B1"
  const ROSE := "#D5A6BD"
  const PALE_BLUE := "#A9CCE3"

  /** Number of entries in the palette. */
  const WHEEL_COLORS_LENGTH := 26

  /** Entry `k` of the `WHEEL_COLORS` array, in source order. Three hex
      codes occur twice. */
  function WheelColors(k: nat): string
    requires k < WHEEL_COLORS_LENGTH
  {
    match k
    case 0 => VIVID_RED      case 1 => TURQUOISE       case 2 => BLUE
    case 3 => LIGHT_GREEN    case 4 => YELLOW          case 5 => LIGHT_PURPLE
    case 6 => MINT_GREEN     case 7 => GOLD            case 8 => LAVENDER
    case 9 => LIGHT_BLUE     case 10 => ORANGE         case 11 => GREEN
    case 12 => CORAL         case 13 => LIGHT_BLUE     case 14 => GOLD
    case 15 => PALE_PURPLE   case 16 => PALE_GREEN     case 17 => PEACH
    case 18 => BABY_BLUE     case 19 => CREAM          case 20 => MEDIUM_PURPLE
    case 21 => PALE_TURQUOISE case 22 => LIGHT_PINK    case 23 => ROSE
    case 24 => PALE_BLUE     case _ => ORANGE
  }

  /** `c` is one of the palette entries. */
  predicate IsPaletteColor(c: string)
  {
    exists k :: 0 <= k < WHEEL_COLORS_LENGTH && WheelColors(k) == c
  }

  /** Colour for the option at list position `index`: the palette cycles.
      Callers pass a list length, so the index is never negative. */
  function GetColorByIndex(index: nat): (c: string)
    ensures IsPaletteColor(c)
    ensures index < WHEEL_COLORS_LENGTH ==> c == WheelColors(index)
  {
    WheelColors(index % WHEEL_COLORS_LENGTH)
  }

  /** The colour sequence repeats every 26 options. */
  lemma ColorPeriodic(index: nat, turns: nat)
    ensures GetColorByIndex(index + WHEEL_COLORS_LENGTH * turns) == GetColorByIndex(index)
  {
    assert (index + 26 * turns) % 26 == index % 26;
  }

  /** Distinct positions can get the same colour, even within one cycle. */
  lemma PaletteRepeats()
    ensures exists i, j :: 0 <= i < j < WHEEL_COLORS_LENGTH && GetColorByIndex(i) == GetColorByIndex(j)
  {
    assert GetColorByIndex(9) == GetColorByIndex(13);
  }
}
