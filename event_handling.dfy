/**
 * The event handling demo (src/tutorials/week1/EventHandling.tsx): a click
 * counter, the last cursor position, a controlled text input and a
 * two-field form, each overwritten by its handler. The handlers that only
 * log are modelled by the value they log; logging itself is output and is
 * not modelled.
 */
module EventHandling {

  /** The two names of the form's inputs, the only names `handleFormChange` is called with. */
  const FormKeys: set<string> := {"username", "email"}

  /** A cursor position `{x, y}`. */
  datatype Position = Position(x: int, y: int)

  /** The message `handleParentClick` logs. */
  const ParentClickedMessage: string := "父元素被点击"

  /** The message `handleChildClick` logs. */
  const ChildClickedMessage: string := "子元素被点击"

  /**
   * The keyed update `{...prev, [name]: value}`: field `name` gets `value`
   * (added if absent) and every other field keeps its value.
   */
  function FormChanged(form: map<string, string>, name: string, value: string): (r: map<string, string>)
    ensures r.Keys == form.Keys + {name}
    ensures r[name] == value
    ensures forall k :: k in form && k != name ==> r[k] == form[k]
  {
    form[name := value]
  }

  /** Updating one of the two fields keeps the form's keys exactly `username` and `email`. */
  lemma FormKeysStayFixed(form: map<string, string>, name: string, value: string)
    requires form.Keys == FormKeys
    requires name in FormKeys
    ensures FormChanged(form, name, value).Keys == FormKeys
  {
  }

  /** The component's four state cells. */
  class EventHandlingComponent {
    var clickCount: nat
    var mousePosition: Position
    var inputText: string
    var formData: map<string, string>

    /** The form holds exactly the fields `username` and `email`. */
    ghost predicate Valid()
      reads this
    {
      formData.Keys == FormKeys
    }

    /** Mount: no clicks, cursor at (0, 0), empty input, empty username and email. */
    constructor ()
      ensures Valid()
      ensures clickCount == 0 && mousePosition == Position(0, 0) && inputText == ""
      ensures formData == map["username" := "", "email" := ""]
    {
      clickCount := 0;
      mousePosition := Position(0, 0);
      inputText := "";
      formData := map["username" := "", "email" := ""];
    }

    /** `handleClick`: one more click; nothing else changes. */
    method HandleClick()
      modifies this
      ensures clickCount == old(clickCount) + 1
      ensures mousePosition == old(mousePosition) && inputText == old(inputText) && formData == old(formData)
    {
      clickCount := clickCount + 1;
    }

    /** `handleMouseMove`: the position becomes the event's client coordinates. */
    method HandleMouseMove(clientX: int, clientY: int)
      modifies this
      ensures mousePosition.x == clientX && mousePosition.y == clientY
      ensures clickCount == old(clickCount) && inputText == old(inputText) && formData == old(formData)
    {
      mousePosition := Position(clientX, clientY);
    }

    /** `handleInputChange`: the text becomes the input's value verbatim. */
    method HandleInputChange(value: string)
      modifies this
      ensures inputText == value
      ensures clickCount == old(clickCount) && mousePosition == old(mousePosition) && formData == old(formData)
    {
      inputText := value;
    }

    /** `handleFormChange`: the keyed update of the form by the input's name and value. */
    method HandleFormChange(name: string, value: string)
      modifies this
      ensures formData == FormChanged(old(formData), name, value)
      ensures clickCount == old(clickCount) && mousePosition == old(mousePosition) && inputText == old(inputText)
    {
      formData := FormChanged(formData, name, value);
    }

    /** The username input's change event: only the username field changes. */
    method OnUsernameChange(value: string)
      requires Valid()
      modifies this
      ensures Valid()
      ensures formData["username"] == value && formData["email"] == old(formData["email"])
      ensures clickCount == old(clickCount) && mousePosition == old(mousePosition) && inputText == old(inputText)
    {
      FormKeysStayFixed(formData, "username", value);
      HandleFormChange("username", value);
    }

    /** The email input's change event: only the email field changes. */
    method OnEmailChange(value: string)
      requires Valid()
      modifies this
      ensures Valid()
      ensures formData["email"] == value && formData["username"] == old(formData["username"])
      ensures clickCount == old(clickCount) && mousePosition == old(mousePosition) && inputText == old(inputText)
    {
      FormKeysStayFixed(formData, "email", value);
      HandleFormChange("email", value);
    }

    /**
     * `handleSubmit`. Its promise that it changes no state is its empty
     * frame (no `modifies` clause); the result only names the form it logs.
     */
    method HandleSubmit() returns (recorded: map<string, string>)
      ensures recorded == formData
    {
      recorded := formData;
    }

    /**
     * `handleKeyPress`. Its promise that it changes no state is its empty
     * frame; the result only says whether it logs, which is when the key is Enter.
     */
    method HandleKeyPress(key: string) returns (enterLogged: bool)
      ensures enterLogged <==> key == "Enter"
    {
      enterLogged := key == "Enter";
    }

    /**
     * `handleParamClick`. Its promise that it changes no state is its empty
     * frame; the result only names the parameter it logs.
     */
    method HandleParamClick(param: string) returns (logged: string)
      ensures logged == param
    {
      logged := param;
    }

    /**
     * `handleParentClick`. Its promise that it changes no state is its empty
     * frame; the result only names the fixed message it logs.
     */
    method HandleParentClick() returns (logged: string)
      ensures logged == ParentClickedMessage
    {
      logged := ParentClickedMessage;
    }

    /**
     * `handleChildClick`. Its promise that it changes no state is its empty
     * frame; the result only names the fixed message it logs.
     */
    method HandleChildClick() returns (logged: string)
      ensures logged == ChildClickedMessage
    {
      logged := ChildClickedMessage;
    }
  }
}
