/**
  The `Task` component: one to-do item with its inline editor. Calls to the
  parent's callbacks are returned as values.
*/
module TaskCard {
  import opened Optional
  import opened Text

  /** The arguments of `onEdit(id, newText)`. */
  datatype TaskEdit = TaskEdit(id: string, text: string)

  /**
    The call `handleEdit` makes: `onEdit` with the trimmed text, and only when
    the text is not blank. What it passes on is never blank and is already trimmed.
  */
  function CommitText(id: string, editText: string): (r: Option<TaskEdit>)
    ensures r.Some? <==> !IsBlank(editText)
    ensures r.Some? ==> r.value.id == id && r.value.text == Trim(editText)
    ensures r.Some? ==> r.value.text != [] && Trim(r.value.text) == r.value.text
  {
    if !IsBlank(editText) then
      TrimmedNotBlank(editText);
      Some(TaskEdit(id, Trim(editText)))
    else None
  }

  class TaskCard {
    // The props; `id` is also the React key.
    const id: string
    var text: string
    var completed: bool
    // The state slots.
    var isEditing: bool
    var editText: string

    /** The first render: not editing, the buffer holding the text. */
    constructor (id: string, text: string, completed: bool)
      ensures this.id == id && this.text == text && this.completed == completed
      ensures !isEditing && editText == text
    {
      this.id, this.text, this.completed := id, text, completed;
      isEditing, editText := false, text;
    }

    /** A re-render with new props: the buffer keeps its value. */
    method Rerender(text: string, completed: bool)
      modifies this`text, this`completed
      ensures this.text == text && this.completed == completed
    {
      this.text, this.completed := text, completed;
    }

    method SetEditText(value: string)
      requires isEditing
      modifies this`editText
      ensures editText == value
    {
      editText := value;
    }

    /** The span and the EDITAR button both open the editor. */
    method StartEditing()
      modifies this`isEditing
      ensures isEditing
    {
      isEditing := true;
    }

    /**
      `handleEdit`: a non-blank text is emitted trimmed and editing ends; a
      blank one emits nothing and editing goes on.
    */
    method HandleEdit() returns (emitted: Option<TaskEdit>)
      requires isEditing
      modifies this`isEditing
      ensures emitted == CommitText(id, editText)
      ensures isEditing <==> emitted.None?
    {
      emitted := CommitText(id, editText);
      if emitted.Some? {
        isEditing := false;
      }
    }

    /** Leaving the input commits through the same `handleEdit`. */
    method Blur() returns (emitted: Option<TaskEdit>)
      requires isEditing
      modifies this`isEditing
      ensures emitted == CommitText(id, editText)
      ensures isEditing <==> emitted.None?
    {
      emitted := HandleEdit();
    }

    /** `handleKeyPress`: Enter commits, Escape restores the text and stops editing, other keys do nothing. */
    method KeyDown(key: string) returns (emitted: Option<TaskEdit>)
      requires isEditing
      modifies this`isEditing, this`editText
      ensures key == Enter ==>
        emitted == CommitText(id, old(editText)) && (isEditing <==> emitted.None?) && editText == old(editText)
      ensures key == Escape ==> emitted.None? && !isEditing && editText == text
      ensures key != Enter && key != Escape ==> emitted.None? && isEditing && editText == old(editText)
    {
      if key == Enter {
        emitted := HandleEdit();
      } else if key == Escape {
        editText := text;
        isEditing := false;
        emitted := None;
      } else {
        emitted := None;
      }
    }

    /** The check box forwards the task's own id to `onToggle`; local state is untouched. */
    method ClickToggle() returns (toggled: string)
      ensures toggled == id
    {
      toggled := id;
    }

    /** EXCLUIR forwards the task's own id to `onDelete`; local state is untouched. */
    method ClickDelete() returns (deleted: string)
      ensures deleted == id
    {
      deleted := id;
    }
  }
}
