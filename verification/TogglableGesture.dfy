/** The five-state toggle of src/input/togglablegesture.cpp. */
module TogglableGesture {

  datatype Status = Inactive | Activating | Deactivating | Active | Stopped

  datatype Toggle = Toggle(status: Status, inProgress: bool, factor: real)

  const OFF := Toggle(Inactive, false, 0.0)
  const ON := Toggle(Active, false, 1.0)

  function Progressed(t: Toggle, progress: real): Toggle {
    if t.status.Inactive? || t.status.Activating? then Toggle(Activating, true, progress) else t
  }

  function Regressed(t: Toggle, regress: real): Toggle {
    if t.status.Active? || t.status.Deactivating? then Toggle(Deactivating, true, 1.0 - regress) else t
  }

  function ActiveSettled(t: Toggle): Toggle {
    if !t.status.Activating? then t else if t.factor > 0.5 then ON else OFF
  }

  function DeactivateSettled(t: Toggle): Toggle {
    if !t.status.Deactivating? then t else if t.factor < 0.5 then OFF else ON
  }

  class TogglableGesture {
    var status: Status
    var inProgress: bool
    var partialGestureFactor: real

    /** The factor is uninitialised in the source, hence a parameter. */
    constructor (factor: real)
      ensures Value() == Toggle(Inactive, false, factor)
    {
      status, inProgress, partialGestureFactor := Inactive, false, factor;
    }

    function Value(): Toggle
      reads this
    {
      Toggle(status, inProgress, partialGestureFactor)
    }

    method SetInProgress(gesture: bool) returns (changed: bool)
      modifies this`inProgress
      ensures inProgress == gesture && changed == (old(inProgress) != gesture)
    {
      changed := inProgress != gesture;
      if changed {
        inProgress := gesture;
      }
    }

    method SetPartialGestureFactor(factor: real) returns (changed: bool)
      modifies this`partialGestureFactor
      ensures partialGestureFactor == factor && changed == (old(partialGestureFactor) != factor)
    {
      changed := partialGestureFactor != factor;
      if changed {
        partialGestureFactor := factor;
      }
    }

    method SetStatus(s: Status) returns (changed: bool)
      modifies this`status
      ensures status == s && changed == (old(status) != s)
    {
      changed := status != s;
      if changed {
        status := s;
      }
    }

    method Activate()
      modifies this
      ensures Value() == Toggle(Active, false, 1.0)
    {
      var _ := SetInProgress(false);
      var _ := SetPartialGestureFactor(1.0);
      var _ := SetStatus(Active);
    }

    method Deactivate()
      modifies this
      ensures Value() == Toggle(Inactive, false, 0.0)
    {
      var _ := SetInProgress(false);
      var _ := SetPartialGestureFactor(0.0);
      var _ := SetStatus(Inactive);
    }

    method Flip()
      modifies this
      ensures Value() == if old(status) == Active then OFF else ON
    {
      if status != Active {
        Activate();
      } else {
        Deactivate();
      }
    }

    method Stop()
      modifies this
      ensures Value() == Toggle(Stopped, false, 0.0)
    {
      var _ := SetInProgress(false);
      var _ := SetPartialGestureFactor(0.0);
      var _ := SetStatus(Stopped);
    }

    method SetProgress(progress: real)
      modifies this
      ensures Value() == Progressed(old(Value()), progress)
    {
      if status == Stopped {
        return;
      }
      match status
      case Inactive | Activating =>
        var _ := SetStatus(Activating);
        var _ := SetInProgress(true);
        var _ := SetPartialGestureFactor(progress);
      case _ =>
    }

    method SetRegress(regress: real)
      modifies this
      ensures Value() == Regressed(old(Value()), regress)
    {
      if status == Stopped {
        return;
      }
      match status
      case Active | Deactivating =>
        var _ := SetStatus(Deactivating);
        var _ := SetInProgress(true);
        var _ := SetPartialGestureFactor(1.0 - regress);
      case _ =>
    }

    method ActiveTriggered()
      modifies this
      ensures Value() == ActiveSettled(old(Value()))
    {
      if status == Activating {
        if partialGestureFactor > 0.5 {
          Activate();
        } else {
          Deactivate();
        }
      }
    }

    method DeactivateTriggered()
      modifies this
      ensures Value() == DeactivateSettled(old(Value()))
    {
      if status == Deactivating {
        if partialGestureFactor < 0.5 {
          Deactivate();
        } else {
          Activate();
        }
      }
    }
  }
}
