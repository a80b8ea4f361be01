/** The decorative robot avatar (app/components/RobotAvatar.tsx): a lamp flag
    that follows the robot state and can be flipped by a click, and the picture
    chosen from the two. */
module RobotAvatar {
  import opened Common

  /** The `RobotState` union of the component's props. */
  datatype RobotState = Idle | Thinking | Error | Off

  /** The lamp value the `[robotState]` effect writes. */
  function LampFor(s: RobotState): (on: bool)
    ensures on <==> s == Thinking || s == Idle
  {
    s == Thinking || s == Idle
  }

  /** `getImageFilename`. The union has four members, so the switch's `default`
      arm cannot be reached. */
  function ImageFilename(s: RobotState, lampOn: bool): (f: string)
    ensures f in {"1.png", "2.png", "3.png", "4.png", "6.png"}
  {
    match s
    case Idle => if lampOn then "2.png" else "1.png"
    case Thinking => "2.png"
    case Error => if lampOn then "3.png" else "4.png"
    case Off => if lampOn then "2.png" else "6.png"
  }

  /** Which (state, lamp) pairs show each picture: only "2.png" is shared. */
  lemma ImageFilenameInverse(s: RobotState, lampOn: bool)
    ensures ImageFilename(s, lampOn) == "2.png" <==> s == Thinking || (lampOn && (s == Idle || s == Off))
    ensures ImageFilename(s, lampOn) == "1.png" <==> s == Idle && !lampOn
    ensures ImageFilename(s, lampOn) == "3.png" <==> s == Error && lampOn
    ensures ImageFilename(s, lampOn) == "4.png" <==> s == Error && !lampOn
    ensures ImageFilename(s, lampOn) == "6.png" <==> s == Off && !lampOn
  {
  }

  /** Right after the effect has re-synced the lamp, the picture is fixed by the
      state alone, and "1.png" and "3.png" only ever appear after a click. */
  lemma SyncedFilename(s: RobotState)
    ensures ImageFilename(s, LampFor(s)) == match s
      case Idle => "2.png"
      case Thinking => "2.png"
      case Error => "4.png"
      case Off => "6.png"
    ensures ImageFilename(s, LampFor(s)) != "1.png" && ImageFilename(s, LampFor(s)) != "3.png"
  {
  }

  /** In the thinking state the lamp does not matter. */
  lemma ThinkingIgnoresLamp(lampOn: bool)
    ensures ImageFilename(Thinking, lampOn) == ImageFilename(Thinking, !lampOn)
  {
  }

  class Avatar {
    /** The `robotState` prop of the last render. */
    var robotState: RobotState
    /** The `lampOn` state. */
    var lampOn: bool

    /** The first render: `useState(true)`, before any effect has run. */
    constructor (initial: RobotState)
      ensures robotState == initial && lampOn
    {
      robotState, lampOn := initial, true;
    }

    /** The effect with dependency `[robotState]`: it runs after the first render
        and after every render whose `robotState` differs from the previous one. */
    method SyncLamp()
      modifies this`lampOn
      ensures lampOn == LampFor(robotState)
    {
      if robotState == Thinking || robotState == Idle {
        lampOn := true;
      } else {
        lampOn := false;
      }
    }

    /** A re-render with a new prop value, followed by the effect if the value changed. */
    method Rerender(s: RobotState)
      modifies this
      ensures robotState == s
      ensures lampOn == if s != old(robotState) then LampFor(s) else old(lampOn)
    {
      var changed := s != robotState;
      robotState := s;
      if changed {
        SyncLamp();
      }
    }

    /** `toggleLamp`: flips the lamp and hands the new value to `onLampToggle`
        when the parent supplied one. */
    method ToggleLamp(hasCallback: bool) returns (notified: Option<bool>)
      modifies this`lampOn
      ensures lampOn == !old(lampOn)
      ensures notified == if hasCallback then Some(lampOn) else None
    {
      var newState := !lampOn;
      if hasCallback {
        notified := Some(newState);
      } else {
        notified := None;
      }
      lampOn := newState;
    }

    /** The picture of the current render. */
    function Filename(): (f: string)
      reads this
      ensures lampOn == LampFor(robotState) ==> f != "1.png" && f != "3.png"
    {
      ImageFilename(robotState, lampOn)
    }
  }

  /** A client: two clicks restore the lamp and so the picture. */
  method ToggleTwice(a: Avatar, hasCallback: bool)
    modifies a
    ensures a.lampOn == old(a.lampOn) && a.robotState == old(a.robotState)
    ensures a.Filename() == old(a.Filename())
  {
    var _ := a.ToggleLamp(hasCallback);
    var _ := a.ToggleLamp(hasCallback);
  }

  /** A client: mounting in the error state first shows "3.png" (the lamp starts
      on), and once the effect has run it shows "4.png". */
  method MountInError() returns (a: Avatar)
    ensures fresh(a) && a.robotState == Error && a.Filename() == "4.png"
  {
    a := new Avatar(Error);
    assert a.Filename() == "3.png";
    a.SyncLamp();
  }
}
