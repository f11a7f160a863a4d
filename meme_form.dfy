/** The meme collection's records and its edit form: the title and url fields,
    the tag list (added trimmed and once, removed by value), and the submit
    that hands the form's data over unchanged. */
module MemeForm {
  import opened Wrappers
  import opened Text
  import opened Lists

  /** What the form edits. */
  datatype MemeFormData = MemeFormData(title: string, url: string, tags: seq<string>)

  /** A stored meme: the form's fields plus an id and a creation time. */
  datatype Meme = Meme(id: string, url: string, title: string, tags: seq<string>, createdAt: nat)

  const EmptyForm: MemeFormData := MemeFormData("", "", [])

  /** The form fields of a stored meme, as the edit form is filled with them. */
  function FormDataOf(m: Meme): MemeFormData {
    MemeFormData(m.title, m.url, m.tags)
  }

  class Form {
    var formData: MemeFormData
    var tagInput: string

    /** The form, filled with `initialData` when editing and empty otherwise. */
    constructor(initialData: Option<MemeFormData>)
      ensures formData == initialData.GetOr(EmptyForm) && tagInput == ""
    {
      formData := initialData.GetOr(EmptyForm);
      tagInput := "";
    }

    /** Typing in the title input changes the title only. */
    method EditTitle(value: string)
      modifies this`formData
      ensures formData == old(formData).(title := value)
    {
      formData := formData.(title := value);
    }

    /** Typing in the url input changes the url only. */
    method EditUrl(value: string)
      modifies this`formData
      ensures formData == old(formData).(url := value)
    {
      formData := formData.(url := value);
    }

    /** Typing in the tag input. */
    method EditTagInput(value: string)
      modifies this`tagInput
      ensures tagInput == value
    {
      tagInput := value;
    }

    /** `addTag`: the trimmed input joins the tags, and the input is cleared,
        when it is non-blank and not yet a tag; title and url stay. */
    method AddTag()
      modifies this`formData, this`tagInput
      ensures Added(formData.tags, tagInput) == AddTrimmed(old(formData.tags), old(tagInput))
      ensures formData.title == old(formData.title) && formData.url == old(formData.url)
      ensures NoDuplicates(old(formData.tags)) ==> NoDuplicates(formData.tags)
    {
      var tag := Trim(tagInput);
      if NoDuplicates(formData.tags) {
        AddTrimmedKeepsNoDuplicates(formData.tags, tagInput);
      }
      if tag != "" && tag !in formData.tags {
        formData := formData.(tags := formData.tags + [tag]);
        tagInput := "";
      }
    }

    /** `removeTag`: every tag equal to `tag` goes, the others stay in order;
        title and url stay. */
    method RemoveTag(tag: string)
      modifies this`formData
      ensures formData == old(formData).(tags := RemoveAll(old(formData.tags), tag))
      ensures NoDuplicates(old(formData.tags)) ==> NoDuplicates(formData.tags)
    {
      if NoDuplicates(formData.tags) {
        RemoveAllNoDuplicates(formData.tags, tag);
      }
      formData := formData.(tags := RemoveAll(formData.tags, tag));
    }

    /** `handleSubmit`: the current form data, as it is. */
    method Submit() returns (data: MemeFormData)
      ensures data == formData
    {
      data := formData;
    }
  }
}
