/** The preference form (components/InputForm.tsx): three text fields and two buttons. */
module InputForm {
  import opened Types
  import opened GeminiService

  /** The preferences the Surprise Me button sends. */
  const SurprisePreferences: Preferences := Preferences("surprise-me", "", "")

  class Form {
    var mood: string
    var genres: string
    var likeThis: string

    /** All three fields start empty. */
    constructor ()
      ensures mood == "" && genres == "" && likeThis == ""
    {
      mood, genres, likeThis := "", "", "";
    }

    /** Typing in the mood input changes only `mood`. */
    method SetMood(value: string)
      modifies this
      ensures mood == value && genres == old(genres) && likeThis == old(likeThis)
    {
      mood := value;
    }

    /** Typing in the genres input changes only `genres`. */
    method SetGenres(value: string)
      modifies this
      ensures genres == value && mood == old(mood) && likeThis == old(likeThis)
    {
      genres := value;
    }

    /** Typing in the "liked recently" input changes only `likeThis`. */
    method SetLikeThis(value: string)
      modifies this
      ensures likeThis == value && mood == old(mood) && genres == old(genres)
    {
      likeThis := value;
    }

    /** `handleSubmit`: forward the current field values unchanged. */
    method HandleSubmit() returns (sent: Preferences)
      ensures sent.mood == mood && sent.genres == genres && sent.likeThis == likeThis
    {
      sent := Preferences(mood, genres, likeThis);
    }

    /** `handleSurpriseMe`: clear the fields and send the fixed surprise request. */
    method HandleSurpriseMe() returns (sent: Preferences)
      modifies this
      ensures mood == "" && genres == "" && likeThis == ""
      ensures sent == SurprisePreferences
    {
      mood, genres, likeThis := "", "", "";
      sent := SurprisePreferences;
    }

    /**
     * The submit button's `disabled` attribute: disabled while loading and while every
     * field is empty, that is, exactly when the request would carry no preference at all.
     */
    function SubmitDisabled(isLoading: bool): (d: bool)
      reads this
      ensures d <==> isLoading || PreferenceLine(Preferences(mood, genres, likeThis)) == ""
    {
      var prefs := Preferences(mood, genres, likeThis);
      if mood == "" && genres == "" && likeThis == "" then
        NoPreferencesNoLine(prefs);
        true
      else
        SomePreferenceSomeLine(prefs);
        isLoading
    }

    /**
     * The Surprise Me button's `disabled` attribute: only loading disables it. It is never
     * disabled while submit is enabled, it is the one way to ask with nothing typed, and
     * the request it sends always carries a preference, whatever the fields hold.
     */
    function SurpriseDisabled(isLoading: bool): (d: bool)
      reads this
      ensures d <==> isLoading
      ensures d ==> SubmitDisabled(isLoading)
      ensures !d && SubmitDisabled(isLoading) ==> PreferenceLine(Preferences(mood, genres, likeThis)) == ""
      ensures !d ==> PreferenceLine(SurprisePreferences) != ""
    {
      SurprisePreferenceLine();
      isLoading
    }
  }
}
