/** The state of a page control that the favorites migrator's modules
    toggle: a button's `btn-loading` class and its `disabled` flag. */
module Controls {

  class Button {
    /** Whether the button carries the `btn-loading` class. */
    var loading: bool
    var disabled: bool

    constructor(disabled: bool)
      ensures !loading && this.disabled == disabled
    {
      loading := false;
      this.disabled := disabled;
    }

    /** `setButtonLoading(button, loading)`: the button is disabled exactly
        while it shows the loading state. */
    method SetLoading(on: bool)
      modifies this
      ensures loading == on && disabled == on
    {
      if on {
        loading := true;
        disabled := true;
      } else {
        loading := false;
        disabled := false;
      }
    }
  }
}
